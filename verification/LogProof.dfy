/** Crash atomicity and space reservation of the log, over every run of LogMachine. */
module LogProof {
  import opened Blocks
  import opened LogMachine

  // ---- invariant ----

  ghost predicate Dirty(m: Store, b: nat) {
    b in m.cache && m.cache[b].dirty
  }

  /** Every buffer is of a disk block, and a clean one agrees with the disk. */
  ghost predicate CacheInv(m: Store) {
    forall b :: b in m.cache ==> b < |m.disk| && (m.cache[b].dirty || m.cache[b].data == m.disk[b])
  }

  ghost predicate Shape(p: Layout, m: Store) {
    && p.start + p.size <= |m.disk| <= TWO32 && 1 <= p.size
    && HeaderFits(m.disk[p.start])
    && CacheInv(m)
  }

  ghost function Hdr(p: Layout, m: Store): seq<nat> {
    if p.start < |m.disk| then HeaderList(m.disk[p.start]) else []
  }

  /** The dirty buffers are exactly those of the listed blocks. */
  ghost predicate Pinned(m: Store, h: seq<nat>) {
    forall b: nat :: Dirty(m, b) <==> b in h
  }

  /** The first t log blocks on disk hold what the system calls wrote. */
  ghost predicate Copied(p: Layout, m: Store, t: nat) {
    forall i :: 0 <= i < t && i < |m.lh| ==> LogBlock(p, m.disk, i) == Data(m, m.lh[i])
  }

  ghost predicate Installed(p: Layout, m: Store, t: nat) {
    forall i :: 0 <= i < t && i < |m.lh| ==> At(m.disk, m.lh[i]) == LogBlock(p, m.disk, i)
  }

  ghost predicate PhaseInv(p: Layout, m: Store) {
    if m.phase.Idle? then Hdr(p, m) == [] && Pinned(m, m.lh)
    else if m.phase.Logging? then
      Hdr(p, m) == [] && Pinned(m, m.lh) && m.phase.tail < |m.lh| && Copied(p, m, m.phase.tail)
    else if m.phase.Committing? then
      Hdr(p, m) == [] && Pinned(m, m.lh) && |m.lh| > 0 && Copied(p, m, |m.lh|)
    else if m.phase.Installing? then
      && Hdr(p, m) == m.lh && m.phase.tail < |m.lh| && Installed(p, m, m.phase.tail)
      && if m.phase.recovering then Pinned(m, []) else Pinned(m, m.lh[m.phase.tail..]) && Copied(p, m, |m.lh|)
    else if m.phase.Clearing? then Hdr(p, m) == m.lh && Installed(p, m, |m.lh|) && Pinned(m, [])
    else if m.phase.Finishing? then Hdr(p, m) == [] && m.lh == [] && Pinned(m, [])
    else GoodList(p, m.disk, Hdr(p, m)) && m.lh == [] && Pinned(m, [])
  }

  ghost predicate StoreInv(p: Layout, m: Store) {
    Shape(p, m) && GoodList(p, m.disk, m.lh) && PhaseInv(p, m)
  }

  /** What the file system holds: during recovery, what recovery is about to restore. */
  ghost function Volatile(p: Layout, m: Store): Home {
    if Recovering(m.phase) then Durable(p, m.disk) else View(p, m)
  }

  /** The effect a step must have on what is durable and on what is visible. */
  ghost predicate Refines(p: Layout, m: Store, l: Label, t: Store) {
    && Durable(p, t.disk) == (if l.CommitHead? then Volatile(p, m) else Durable(p, m.disk))
    && Volatile(p, t) == (if l.LogWrite? then Volatile(p, m)[l.b := l.data]
                          else if l.Crash? then Durable(p, m.disk) else Volatile(p, m))
  }

  // ---- every step keeps the store invariant and refines an atomic store ----

  /** A step that changes neither the disk nor the list, nor what any block reads as. */
  lemma CacheFrame(p: Layout, m: Store, t: Store)
    requires StoreInv(p, m) && Shape(p, t)
    requires t.disk == m.disk && t.lh == m.lh && t.phase == m.phase
    requires forall b: nat :: Dirty(m, b) <==> Dirty(t, b)
    requires forall b: nat :: Data(t, b) == Data(m, b)
    ensures StoreInv(p, t) && View(p, t) == View(p, m)
  {
  }

  lemma LogWriteKeeps(p: Layout, m: Store, b: nat, data: Block, t: Store)
    requires StoreInv(p, m) && m.phase.Idle? && b < |m.disk| && !InLog(p, b) && !TooBig(p, m)
    requires t == m.(cache := m.cache[b := Buf(data, true)], lh := if b in m.lh then m.lh else m.lh + [b])
    ensures StoreInv(p, t) && View(p, t) == View(p, m)[b := data]
  {
  }

  /** t is m after block `to` got `data`, on disk and as a clean buffer; other blocks read as before. */
  ghost predicate Written(m: Store, t: Store, to: nat, data: Block) {
    && to < |m.disk| && t.disk == m.disk[to := data]
    && (forall b: nat :: Dirty(t, b) <==> b != to && Dirty(m, b))
    && (forall b: nat :: Data(t, b) == if b == to then data else Data(m, b))
    && CacheInv(t)
  }

  lemma CopyBlockWrites(p: Layout, m: Store, from: nat, to: nat, next: Phase)
    requires Shape(p, m) && from < |m.disk| && to < |m.disk|
    ensures var t := CopyBlock(m, from, to, next); Written(m, t, to, Data(m, from)) && t.lh == m.lh && t.phase == next
  {
  }

  lemma WriteHeadWrites(p: Layout, m: Store, lh: seq<nat>, next: Phase)
    requires Shape(p, m) && Listable(lh)
    ensures Written(m, WriteHead(p, m, lh, next), p.start, SetHeader(Data(m, p.start), lh))
  {
  }

  lemma CopyKeeps(p: Layout, m: Store, t: Store, i: nat)
    requires StoreInv(p, m) && m.phase == Logging(i)
    requires Written(m, t, p.start + i + 1, Data(m, m.lh[i]))
    requires t.lh == m.lh && t.phase == AfterCopy(i + 1, |m.lh|)
    ensures StoreInv(p, t) && Refines(p, m, CopyToLog, t)
  {
    assert t.disk[p.start] == m.disk[p.start];
    CopyView(p, m, t, p.start + i + 1, Data(m, m.lh[i]));
  }

  /** Writing a log block while the header is empty changes nothing anyone can see. */
  lemma CopyView(p: Layout, m: Store, t: Store, to: nat, data: Block)
    requires Written(m, t, to, data) && InLog(p, to) && to != p.start && p.start < |m.disk| && Hdr(p, m) == []
    ensures View(p, t) == View(p, m) && Durable(p, t.disk) == Durable(p, m.disk)
  {
    assert t.disk[p.start] == m.disk[p.start];
  }

  lemma CommitKeeps(p: Layout, m: Store, t: Store)
    requires StoreInv(p, m) && m.phase == Committing
    requires Written(m, t, p.start, SetHeader(Data(m, p.start), m.lh))
    requires t.lh == m.lh && t.phase == Installing(0, false)
    ensures StoreInv(p, t)
    ensures View(p, t) == View(p, m) && Durable(p, t.disk) == View(p, m)
  {
    assert m.lh[0..] == m.lh;
    assert Hdr(p, t) == m.lh;
    hide SetHeader, HeaderList;
  }

  lemma InstalledNext(p: Layout, m: Store, t: Store, i: nat)
    requires p.start + p.size <= |m.disk| && GoodList(p, m.disk, m.lh) && i < |m.lh| && Installed(p, m, i)
    requires t.disk == m.disk[m.lh[i] := LogBlock(p, m.disk, i)] && t.lh == m.lh
    ensures Installed(p, t, i + 1)
    ensures forall j: nat :: j < |m.lh| ==> LogBlock(p, t.disk, j) == LogBlock(p, m.disk, j)
  {
    assert !InLog(p, m.lh[i]);
  }

  lemma PinnedNext(m: Store, t: Store, h: seq<nat>, i: nat)
    requires Distinct(h) && i < |h| && Pinned(m, h[i..])
    requires forall b: nat :: Dirty(t, b) <==> b != h[i] && Dirty(m, b)
    ensures Pinned(t, h[i+1..])
  {
    assert h[i..] == [h[i]] + h[i+1..];
  }

  lemma InstallKeeps(p: Layout, m: Store, t: Store, i: nat)
    requires StoreInv(p, m) && m.phase.Installing? && m.phase.tail == i
    requires Written(m, t, m.lh[i], LogBlock(p, m.disk, i))
    requires t.lh == m.lh && t.phase == AfterInstall(i + 1, |m.lh|, m.phase.recovering)
    ensures StoreInv(p, t)
  {
    InstallShape(p, m, t, i);
    InstalledNext(p, m, t, i);
    hide HeaderFits, HeaderList, LogBlock, At, Data, Dirty, Shape, GoodList, Hdr, CacheInv, Installed;
    if m.phase.recovering {
      assert Pinned(t, []);
    } else {
      PinnedNext(m, t, m.lh, i);
      InstallCopied(p, m, t, i);
    }
  }

  lemma InstallShape(p: Layout, m: Store, t: Store, i: nat)
    requires Shape(p, m) && GoodList(p, m.disk, m.lh) && i < |m.lh| && t.lh == m.lh
    requires Written(m, t, m.lh[i], LogBlock(p, m.disk, i))
    ensures Shape(p, t) && GoodList(p, t.disk, t.lh) && Hdr(p, t) == Hdr(p, m)
  {
    assert !InLog(p, m.lh[i]) && t.disk[p.start] == m.disk[p.start];
    hide HeaderFits, HeaderList;
  }

  /** The log blocks keep agreeing with what the home blocks read as. */
  lemma InstallCopied(p: Layout, m: Store, t: Store, i: nat)
    requires Copied(p, m, |m.lh|) && i < |m.lh| && Distinct(m.lh) && t.lh == m.lh
    requires Written(m, t, m.lh[i], LogBlock(p, m.disk, i))
    requires forall j: nat :: j < |m.lh| ==> LogBlock(p, t.disk, j) == LogBlock(p, m.disk, j)
    ensures Copied(p, t, |t.lh|)
  {
    hide LogBlock, Data, Dirty, CacheInv;
  }

  lemma InstallView(p: Layout, m: Store, t: Store, i: nat)
    requires StoreInv(p, m) && m.phase.Installing? && m.phase.tail == i && !m.phase.recovering
    requires Written(m, t, m.lh[i], LogBlock(p, m.disk, i))
    ensures View(p, t) == View(p, m)
  {
  }

  lemma InstallDurable(p: Layout, m: Store, t: Store, i: nat)
    requires StoreInv(p, m) && m.phase.Installing? && m.phase.tail == i
    requires t.disk == m.disk[m.lh[i] := LogBlock(p, m.disk, i)]
    ensures Durable(p, t.disk) == Durable(p, m.disk)
  {
    assert t.disk[p.start] == m.disk[p.start];
  }

  /** Once every logged block is home, recovery has nothing left to do. */
  lemma ClearingDurable(p: Layout, m: Store)
    requires StoreInv(p, m) && m.phase.Clearing?
    ensures View(p, m) == Durable(p, m.disk)
  {
    forall b: nat | b < |m.disk| && !InLog(p, b)
      ensures Data(m, b) == Redo(p, m.disk, m.lh, b)
    {
      assert !Dirty(m, b);
    }
  }

  lemma ClearKeeps(p: Layout, m: Store, t: Store)
    requires StoreInv(p, m) && m.phase.Clearing?
    requires Written(m, t, p.start, SetHeader(Data(m, p.start), []))
    requires t.lh == [] && t.phase == if m.phase.recovering then Idle else Finishing
    ensures StoreInv(p, t)
    ensures View(p, t) == View(p, m)
  {
    hide Word, SetWord, SetEntries, SetHeader;
    assert Hdr(p, t) == [];
  }

  /** With an empty header the disk stands for itself. */
  lemma CleanDurable(p: Layout, m: Store)
    requires Shape(p, m) && Hdr(p, m) == [] && Pinned(m, [])
    ensures Durable(p, m.disk) == View(p, m)
  {
    forall b: nat | b < |m.disk| ensures Data(m, b) == m.disk[b] { assert !Dirty(m, b); }
  }

  // ---- operations ----

  ghost predicate OpInv(s: State) {
    && s.outstanding == |s.active|
    && s.active.Keys <= s.used
    && (!s.m.phase.Idle? ==> s.active == map[])
    && (s.committing <==> !s.m.phase.Idle? && !Recovering(s.m.phase))
    && (s.m.phase.Idle? && s.active == map[] ==> s.m.lh == [])
    && (s.waiting != {} ==> !Admits(s) && !Recovering(s.m.phase))
    && s.waiting !! s.used
  }

  ghost predicate Inv(p: Layout, s: State) {
    StoreInv(p, s.m) && OpInv(s)
  }

  ghost predicate StepOk(p: Layout, s: State, l: Label)
    requires Enabled(p, s, l)
  {
    Inv(p, Apply(p, s, l)) && Refines(p, s.m, l, Apply(p, s, l).m)
  }

  lemma OpBegin(s: State, op: OpId, t: State)
    requires OpInv(s) && s.m.phase.Idle? && op !in s.used && op !in s.waiting && Admits(s)
    requires t == Account(s, BeginOp(op), s.m)
    ensures OpInv(t)
  {
    assert t.active.Keys == s.active.Keys + {op};
  }

  lemma OpWrite(s: State, op: OpId, b: nat, data: Block, t: State)
    requires OpInv(s) && s.m.phase.Idle? && op in s.active
    requires t == Account(s, LogWrite(op, b, data), t.m)
    requires t.m.phase.Idle? && t.m.lh == if b in s.m.lh then s.m.lh else s.m.lh + [b]
    ensures OpInv(t)
  {
    if b !in s.m.lh {
      assert t.active.Keys == s.active.Keys;
    }
  }

  lemma OpEnd(s: State, op: OpId, t: State)
    requires OpInv(s) && s.m.phase.Idle? && op in s.active && !s.committing
    requires t == Account(s, EndOp(op), t.m) && t.m.lh == s.m.lh
    requires t.m.phase == if s.outstanding != 1 then Idle else if |s.m.lh| > 0 then Logging(0) else Finishing
    ensures OpInv(t)
  {
    assert t.active.Keys == s.active.Keys - {op};
  }

  lemma CopyStep(p: Layout, m: Store, t: Store)
    requires StoreInv(p, m) && m.phase.Logging?
    requires t == CopyBlock(m, m.lh[m.phase.tail], p.start + m.phase.tail + 1, AfterCopy(m.phase.tail + 1, |m.lh|))
    ensures StoreInv(p, t) && Refines(p, m, CopyToLog, t)
  {
    CopyBlockWrites(p, m, m.lh[m.phase.tail], p.start + m.phase.tail + 1, t.phase);
    CopyKeeps(p, m, t, m.phase.tail);
  }

  lemma CommitStep(p: Layout, m: Store, t: Store)
    requires StoreInv(p, m) && m.phase.Committing? && Listable(m.lh)
    requires t == WriteHead(p, m, m.lh, AfterInstall(0, |m.lh|, false))
    ensures StoreInv(p, t) && Refines(p, m, CommitHead, t)
  {
    WriteHeadWrites(p, m, m.lh, t.phase);
    CommitKeeps(p, m, t);
  }

  lemma LogWriteStep(p: Layout, s: State, op: OpId, b: nat, data: Block)
    requires Inv(p, s) && Enabled(p, s, LogWrite(op, b, data))
    ensures StepOk(p, s, LogWrite(op, b, data))
  {
    var t := Apply(p, s, LogWrite(op, b, data));
    LogWriteKeeps(p, s.m, b, data, t.m);
    OpWrite(s, op, b, data, t);
  }

  lemma EndOpStep(p: Layout, s: State, op: OpId)
    requires Inv(p, s) && Enabled(p, s, EndOp(op))
    ensures StepOk(p, s, EndOp(op))
  {
    var t := Apply(p, s, EndOp(op));
    OpEnd(s, op, t);
    assert StoreInv(p, t.m);
  }

  lemma BeginOpStep(p: Layout, s: State, op: OpId)
    requires Inv(p, s) && Enabled(p, s, BeginOp(op))
    ensures StepOk(p, s, BeginOp(op))
  {
    OpBegin(s, op, Apply(p, s, BeginOp(op)));
  }

  lemma WaitOpStep(p: Layout, s: State, op: OpId)
    requires Inv(p, s) && Enabled(p, s, WaitOp(op))
    ensures StepOk(p, s, WaitOp(op))
  {
  }

  lemma FillFrame(p: Layout, m: Store, b: nat)
    requires StoreInv(p, m) && b < |m.disk|
    ensures var t := Bread(m, b);
      t.disk == m.disk && t.lh == m.lh && t.phase == m.phase && StoreInv(p, t) && View(p, t) == View(p, m)
  {
    hide GoodList, PhaseInv, View, HeaderFits;
    CacheFrame(p, m, Bread(m, b));
  }

  lemma FillStep(p: Layout, s: State, b: nat)
    requires Inv(p, s) && Enabled(p, s, Fill(b))
    ensures StepOk(p, s, Fill(b))
  {
    hide StoreInv, View, Durable, Bread;
    FillFrame(p, s.m, b);
  }

  lemma EvictStep(p: Layout, s: State, b: nat)
    requires Inv(p, s) && Enabled(p, s, Evict(b))
    ensures StepOk(p, s, Evict(b))
  {
    hide StoreInv, View, Durable;
    EvictFrame(p, s.m, b);
  }

  lemma EvictFrame(p: Layout, m: Store, b: nat)
    requires StoreInv(p, m) && b in m.cache && !m.cache[b].dirty
    ensures var t := m.(cache := m.cache - {b}); StoreInv(p, t) && View(p, t) == View(p, m)
  {
    hide GoodList, PhaseInv, View, HeaderFits;
    CacheFrame(p, m, m.(cache := m.cache - {b}));
  }

  lemma CrashStep(p: Layout, s: State)
    requires Inv(p, s)
    ensures StepOk(p, s, Crash)
  {
  }

  lemma FinishStep(p: Layout, s: State)
    requires Inv(p, s) && Enabled(p, s, FinishCommit)
    ensures StepOk(p, s, FinishCommit)
  {
  }

  lemma CopyToLogStep(p: Layout, s: State)
    requires Inv(p, s) && Enabled(p, s, CopyToLog)
    ensures StepOk(p, s, CopyToLog)
  {
    CopyStep(p, s.m, Move(p, s, CopyToLog));
  }

  lemma CommitHeadStep(p: Layout, s: State)
    requires Inv(p, s) && Enabled(p, s, CommitHead)
    ensures StepOk(p, s, CommitHead)
  {
    CommitStep(p, s.m, Move(p, s, CommitHead));
  }

  lemma RecoveryStep(p: Layout, s: State, l: Label)
    requires Inv(p, s) && Enabled(p, s, l)
    requires l.InstallOne? || l.ClearHead? || l.ReadHead?
    ensures StepOk(p, s, l)
  {
    hide StoreInv, View, Durable, HeaderList, Data, SetHeader;
    var t := Move(p, s, l);
    if l.InstallOne? { InstallStep(p, s.m, t); }
    else if l.ClearHead? { ClearStep(p, s.m, t); }
    else { ReadStep(p, s.m, t); }
  }

  lemma InstallStep(p: Layout, m: Store, t: Store)
    requires StoreInv(p, m) && m.phase.Installing?
    requires t == CopyBlock(m, p.start + m.phase.tail + 1, m.lh[m.phase.tail],
                            AfterInstall(m.phase.tail + 1, |m.lh|, m.phase.recovering))
    ensures StoreInv(p, t) && Refines(p, m, InstallOne, t)
  {
    hide StoreInv, Shape, CopyBlock, Data, Refines, Written, LogBlock;
    var i := m.phase.tail;
    LogClean(p, m, i);
    CopyBlockWrites(p, m, p.start + i + 1, m.lh[i], AfterInstall(i + 1, |m.lh|, m.phase.recovering));
    InstallKeeps(p, m, t, i);
    InstallRefines(p, m, t, i);
  }

  lemma InstallRefines(p: Layout, m: Store, t: Store, i: nat)
    requires StoreInv(p, m) && m.phase.Installing? && m.phase.tail == i
    requires Written(m, t, m.lh[i], LogBlock(p, m.disk, i))
    requires t.phase == AfterInstall(i + 1, |m.lh|, m.phase.recovering)
    ensures Refines(p, m, InstallOne, t)
  {
    hide StoreInv, Data, Dirty, CacheInv, LogBlock, View, Durable;
    InstallDurable(p, m, t, i);
    if !m.phase.recovering {
      InstallView(p, m, t, i);
    }
  }

  lemma LogNotPinned(p: Layout, m: Store, h: seq<nat>, b: nat)
    requires Pinned(m, h) && CacheInv(m) && InLog(p, b) && b < |m.disk| && forall i :: 0 <= i < |h| ==> !InLog(p, h[i])
    ensures Data(m, b) == m.disk[b]
  {
    assert b !in h && !Dirty(m, b);
  }

  /** Log blocks are never dirty, so a read of one is a read of the disk. */
  lemma LogClean(p: Layout, m: Store, i: nat)
    requires StoreInv(p, m) && m.phase.Installing? && m.phase.tail == i
    ensures Shape(p, m) && i < |m.lh| && m.lh[i] < |m.disk| && p.start + i + 1 < |m.disk| && Data(m, p.start + i + 1) == LogBlock(p, m.disk, i)
  {
    hide Data, HeaderList, HeaderFits, Copied, Installed, Dirty;
    LogNotPinned(p, m, if m.phase.recovering then [] else m.lh[i..], p.start + i + 1);
  }

  lemma ClearStep(p: Layout, m: Store, t: Store)
    requires StoreInv(p, m) && m.phase.Clearing?
    requires t == WriteHead(p, m, [], if m.phase.recovering then Idle else Finishing)
    ensures StoreInv(p, t) && Refines(p, m, ClearHead, t)
  {
    hide Word, SetWord, SetEntries, SetHeader;
    WriteHeadWrites(p, m, [], t.phase);
    ClearKeeps(p, m, t);
    ClearingDurable(p, m);
    assert Hdr(p, t) == [] && Pinned(t, []);
    CleanDurable(p, t);
  }

  lemma ReadStep(p: Layout, m: Store, t: Store)
    requires StoreInv(p, m) && m.phase.Booting?
    requires t == LoadHead(Bread(m, p.start), HeaderList(Data(m, p.start)))
    ensures StoreInv(p, t) && Refines(p, m, ReadHead, t)
  {
    assert !Dirty(m, p.start);
    assert Data(m, p.start) == m.disk[p.start];
  }

  /** Every step of every kind keeps the invariant and refines the atomic store. */
  lemma StepRefines(p: Layout, s: State, l: Label)
    requires Inv(p, s) && Enabled(p, s, l)
    ensures StepOk(p, s, l)
  {
    match l
    case BeginOp(op) => BeginOpStep(p, s, op);
    case WaitOp(op) => WaitOpStep(p, s, op);
    case LogWrite(op, b, data) => LogWriteStep(p, s, op, b, data);
    case EndOp(op) => EndOpStep(p, s, op);
    case Fill(b) => FillStep(p, s, b);
    case Evict(b) => EvictStep(p, s, b);
    case CopyToLog => CopyToLogStep(p, s);
    case CommitHead => CommitHeadStep(p, s);
    case InstallOne => RecoveryStep(p, s, l);
    case ClearHead => RecoveryStep(p, s, l);
    case FinishCommit => FinishStep(p, s);
    case Crash => CrashStep(p, s);
    case ReadHead => RecoveryStep(p, s, l);
  }
}
