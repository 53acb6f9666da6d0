/** The procedures of log.c over a mutable log, disk and buffer cache.

    `run` records the steps taken since power-on.  Every procedure is proved to append
    exactly the steps LogMachine allows, so the theorems of LogRuns hold at each block
    write inside each procedure, and not only between calls. */
module LogCode {
  import opened Blocks
  import opened LogMachine
  import opened LogProof
  import opened LogRuns

  datatype LogWriteResult = Logged | PanicTooBig | PanicOutsideTrans

  class Log {
    const p: Layout
    var disk: seq<Block>
    var cache: map<nat, Buf>
    var n: nat
    const block: array<nat>
    var outstanding: int
    var committing: bool

    ghost const s0: State
    ghost var phase: Phase
    ghost var active: map<OpId, nat>
    ghost var used: set<OpId>
    ghost var waiting: set<OpId>
    ghost var run: seq<Label>

    ghost function Lh(): seq<nat>
      reads this, block
    {
      if n <= block.Length then block[..n] else []
    }

    ghost function Snap(): State
      reads this, block
    {
      State(Store(disk, cache, Lh(), phase), outstanding, committing, active, used, waiting)
    }

    ghost predicate Ok()
      reads this, block
    {
      && block.Length == LOGSIZE && n <= LOGSIZE
      && Initial(p, s0) && Valid(p, s0, run) && Snap() == Exec(p, s0, run)
    }

    constructor (p: Layout, disk: seq<Block>)
      requires 1 <= p.size && p.start + p.size <= |disk| <= TWO32
      requires HeaderFits(disk[p.start]) && GoodList(p, disk, HeaderList(disk[p.start]))
      ensures Ok() && run == [] && phase.Booting? && this.disk == disk && this.p == p
    {
      this.p := p;
      this.disk, cache, n, outstanding, committing := disk, map[], 0, 0, false;
      block := new nat[LOGSIZE];
      phase, active, used, waiting, run := Booting, map[], {}, {}, [];
      s0 := State(Store(disk, map[], [], Booting), 0, false, map[], {}, {});
    }

    // ---- the buffer cache, as the log sees it ----

    method Bread(b: nat) returns (data: Block)
      modifies this`cache
      ensures data == old(Data(Snap().m, b))
      ensures cache == old(LogMachine.Bread(Snap().m, b).cache)
    {
      if b !in cache {
        cache := cache[b := Buf(if b < |disk| then disk[b] else ZeroBlock(), false)];
      }
      data := cache[b].data;
    }

    method Bwrite(b: nat, data: Block)
      requires b < |disk|
      modifies this`cache, this`disk
      ensures disk == old(disk)[b := data] && cache == old(cache)[b := Buf(data, false)]
    {
      cache := cache[b := Buf(data, true)];
      disk := disk[b := data];
      cache := cache[b := Buf(data, false)];
    }

    // ---- commit ----

    /** bread the two blocks, memmove, bwrite. */
    method CopyBuf(from: nat, to: nat)
      requires from < |disk| && to < |disk| && from != to
      modifies this`cache, this`disk
      ensures disk == old(disk)[to := old(Data(Snap().m, from))]
      ensures cache == old(LogMachine.Bread(Snap().m, from).cache)[to := Buf(disk[to], false)]
    {
      var tb := Bread(to);
      var fb := Bread(from);
      Bwrite(to, fb);
    }

    /** The body of write_log's loop. */
    method WriteLogBlock(tail: nat)
      requires Ok() && phase == Logging(tail) && tail < n
      modifies this`cache, this`disk, this`phase, this`run
      ensures Ok() && run == old(run) + [CopyToLog] && phase == AfterCopy(tail + 1, n)
    {
      hide Exec, Valid, Apply, Move;
      CopyReadyRun(p, s0, run, tail);
      CopyApplied(p, Snap());
      Extend(p, s0, run, CopyToLog);
      CopyBuf(block[tail], p.start + tail + 1);
      phase, run := AfterCopy(tail + 1, n), run + [CopyToLog];
    }

    method WriteLog()
      requires Ok() && phase == Logging(0) && n > 0
      modifies this`cache, this`disk, this`phase, this`run
      ensures Ok() && phase == Committing && run == old(run) + Repeat(CopyToLog, n)
    {
      hide Exec, Valid, Apply, Move;
      var tail := 0;
      while tail < n
        invariant tail <= n && Ok() && phase == AfterCopy(tail, n)
        invariant run == old(run) + Repeat(CopyToLog, tail)
      {
        WriteLogBlock(tail);
        tail := tail + 1;
      }
    }

    /** The body of install_trans's loop. */
    method InstallBlock(tail: nat, ghost recovering: bool)
      requires Ok() && phase == Installing(tail, recovering) && tail < n
      modifies this`cache, this`disk, this`phase, this`run
      ensures Ok() && run == old(run) + [InstallOne] && phase == AfterInstall(tail + 1, n, recovering)
    {
      hide Exec, Valid, Apply, Move;
      CopyReadyRun(p, s0, run, tail);
      InstallApplied(p, Snap());
      Extend(p, s0, run, InstallOne);
      CopyBuf(p.start + tail + 1, block[tail]);
      phase, run := AfterInstall(tail + 1, n, recovering), run + [InstallOne];
    }

    method InstallTrans(ghost recovering: bool)
      requires Ok() && phase == AfterInstall(0, n, recovering)
      modifies this`cache, this`disk, this`phase, this`run
      ensures Ok() && phase == Clearing(recovering) && run == old(run) + Repeat(InstallOne, n)
    {
      hide Exec, Valid, Apply, Move;
      var tail := 0;
      while tail < n
        invariant tail <= n && Ok() && phase == AfterInstall(tail, n, recovering)
        invariant run == old(run) + Repeat(InstallOne, tail)
      {
        InstallBlock(tail, recovering);
        tail := tail + 1;
      }
    }

    /** write_head: fill in the count and the n entries, then write the block. */
    method WriteHead()
      requires block.Length == LOGSIZE && n <= LOGSIZE && p.start < |disk| && Listable(Lh())
      modifies this`cache, this`disk
      ensures disk == old(disk)[p.start := SetHeader(old(Data(Snap().m, p.start)), Lh())]
      ensures cache == old(cache)[p.start := Buf(disk[p.start], false)]
    {
      hide Word, SetWord;
      var hb := Bread(p.start);
      ghost var was := hb;
      hb := SetWord(hb, 0, n);
      var i := 0;
      while i < n
        invariant i <= n && Listable(block[..i]) && hb == SetEntries(SetWord(was, 0, n), block[..i])
      {
        hb := SetWord(hb, i + 1, block[i]);
        assert block[..i+1][..i] == block[..i];
        i := i + 1;
      }
      Bwrite(p.start, hb);
    }

    /** The write_head that commits. */
    method CommitHeader()
      requires Ok() && phase == Committing
      modifies this`cache, this`disk, this`phase, this`run
      ensures Ok() && run == old(run) + [CommitHead] && phase == AfterInstall(0, n, false)
    {
      hide Exec, Valid, Apply, Move, Initial, SetHeader, Data;
      CanCommit(p, s0, run);
      WriteHead();
      phase, run := AfterInstall(0, n, false), run + [CommitHead];
    }

    /** log.lh.n = 0; write_head() */
    method EraseHeader(ghost recovering: bool)
      requires Ok() && phase == Clearing(recovering)
      modifies this`n, this`cache, this`disk, this`phase, this`run
      ensures Ok() && run == old(run) + [ClearHead] && n == 0
      ensures phase == if recovering then Idle else Finishing
    {
      hide Exec, Valid, Apply, Move;
      CanErase(p, s0, run);
      n := 0;
      WriteHead();
      phase, run := if recovering then Idle else Finishing, run + [ClearHead];
    }

    /** commit(): afterwards the disk alone stands for everything the system calls wrote. */
    method Commit()
      requires Ok() && phase == if n > 0 then Logging(0) else Finishing
      modifies this`n, this`cache, this`disk, this`phase, this`run
      ensures Ok() && n == 0 && phase == Finishing && run == old(run) + CommitLabels(old(n))
      ensures View(p, Snap().m) == old(View(p, Snap().m)) == Durable(p, disk)
    {
      hide Exec, Valid, Apply, Move, Initial, View, Durable;
      ghost var ls := CommitLabels(n);
      if n > 0 {
        WriteLog();
        CommitHeader();
        InstallTrans(false);
        EraseHeader(false);
      }
      assert run == old(run) + ls;
      Settled(p, s0, old(run), ls);
    }

    method CopyHeader(buf: Block)
      requires block.Length == LOGSIZE && HeaderFits(buf)
      modifies this`n, block
      ensures n <= LOGSIZE && Lh() == HeaderList(buf)
    {
      n := Word(buf, 0);
      var i := 0;
      while i < n
        invariant i <= n == Word(buf, 0) && block[..i] == HeaderList(buf)[..i]
      {
        block[i] := Word(buf, i + 1);
        i := i + 1;
      }
    }

    /** read_head */
    method LoadHeader()
      requires Ok() && phase.Booting?
      modifies this`n, block, this`cache, this`phase, this`run
      ensures Ok() && run == old(run) + [ReadHead] && phase == AfterInstall(0, n, true)
    {
      hide Exec, Valid, Apply, Move, Word, Initial;
      CanRead(p, s0, run);
      var buf := Bread(p.start);
      CopyHeader(buf);
      phase, run := AfterInstall(0, n, true), run + [ReadHead];
    }

    /** recover_from_log(): afterwards the file system shows what the crashed disk stood for. */
    method RecoverFromLog()
      requires Ok() && phase.Booting?
      modifies this`n, block, this`cache, this`disk, this`phase, this`run
      ensures Ok() && n == 0 && phase == Idle
      ensures exists k: nat :: run == old(run) + ([ReadHead] + Repeat(InstallOne, k) + [ClearHead])
      ensures View(p, Snap().m) == old(Durable(p, disk)) == Durable(p, disk)
    {
      hide Exec, Valid, Apply, Move;
      LoadHeader();
      ghost var k := n;
      InstallTrans(true);
      EraseHeader(true);
      ghost var ls := [ReadHead] + Repeat(InstallOne, k) + [ClearHead];
      assert run == old(run) + ls;
      Settled(p, s0, old(run), ls);
    }

    // ---- system calls ----

    /** One turn of begin_op's loop; false means the caller sleeps on the log until a wakeup. */
    method BeginOp(op: OpId) returns (begun: bool)
      requires Ok() && !Recovering(phase) && op !in used && op !in waiting
      modifies this`outstanding, this`active, this`used, this`waiting, this`run
      ensures Ok() && (begun <==> !old(committing) && n + (old(outstanding) + 1) * MAXOPBLOCKS <= LOGSIZE)
      ensures run == old(run) + [if begun then LogMachine.BeginOp(op) else WaitOp(op)]
      ensures begun ==> op in active && outstanding == old(outstanding) + 1 && waiting == old(waiting)
      ensures !begun ==> op in waiting && (committing || outstanding > 0)
    {
      hide Exec, Valid;
      Reachable(p, s0, run);
      if committing {
        begun := false;
      } else if n + (outstanding + 1) * MAXOPBLOCKS > LOGSIZE {
        begun := false;
      } else {
        begun := true;
      }
      if begun {
        Extend(p, s0, run, LogMachine.BeginOp(op));
        outstanding := outstanding + 1;
        active, used, run := active[op := 0], used + {op}, run + [LogMachine.BeginOp(op)];
      } else {
        Extend(p, s0, run, WaitOp(op));
        waiting, run := waiting + {op}, run + [WaitOp(op)];
        SleepersWaitForSomeone(p, s0, run);
      }
    }

    /** end_op: the panic on log.committing cannot happen, and the last operation out commits. */
    method EndOp(op: OpId) returns (panicked: bool)
      requires Ok() && phase.Idle? && op in active
      modifies this`n, this`cache, this`disk, this`phase, this`run, this`outstanding, this`committing, this`active, this`waiting
      ensures !panicked && Ok() && phase.Idle? && !committing && waiting == {}
      ensures run == old(run) + EndLabels(op, old(n), old(outstanding) == 1)
      ensures View(p, Snap().m) == old(View(p, Snap().m))
      ensures old(outstanding) == 1 ==> n == 0 && Durable(p, disk) == old(View(p, Snap().m))
    {
      hide Exec, Valid, Apply, Move, Initial, View, Durable;
      ghost var ls := EndLabels(op, n, outstanding == 1);
      panicked := LeaveOp(op);
      if committing { CommitAll(); }
      assert run == old(run) + ls;
      EndSettled(p, s0, old(run), ls);
    }

    /** The part of end_op after the lock is dropped. */
    method CommitAll()
      requires Ok() && phase == if n > 0 then Logging(0) else Finishing
      modifies this`n, this`cache, this`disk, this`phase, this`run, this`committing, this`waiting
      ensures Ok() && phase.Idle? && !committing && n == 0 && waiting == {}
      ensures run == old(run) + (CommitLabels(old(n)) + [FinishCommit])
    {
      hide Exec, Valid, Apply, Move, Initial, View, Durable, Data;
      Commit();
      FinishReady(p, s0, run);
      committing := false;
      phase, waiting, run := Idle, {}, run + [FinishCommit];
    }

    /** The part of end_op under log.lock. */
    method LeaveOp(op: OpId) returns (panicked: bool)
      requires Ok() && phase.Idle? && op in active
      modifies this`phase, this`run, this`outstanding, this`committing, this`active, this`waiting
      ensures !panicked && Ok() && run == old(run) + [LogMachine.EndOp(op)]
      ensures !committing ==> waiting == {}
      ensures committing == (old(outstanding) == 1)
      ensures phase == if !committing then Idle else if n > 0 then Logging(0) else Finishing
    {
      hide Exec, Valid;
      EndOpReady(p, s0, run, op);
      outstanding := outstanding - 1;
      panicked := committing;
      if outstanding == 0 {
        committing := true;
        phase := if n > 0 then Logging(0) else Finishing;
      } else {
        waiting := {};
      }
      active, run := active - {op}, run + [LogMachine.EndOp(op)];
    }

    /** log_write's loop: find the block in the list, or append it. */
    method Absorb(b: nat) returns (added: bool)
      requires block.Length == LOGSIZE && n < LOGSIZE
      modifies this`n, block
      ensures n <= LOGSIZE && added == (b !in old(Lh()))
      ensures Lh() == if added then old(Lh()) + [b] else old(Lh())
    {
      var i := 0;
      while i < n && block[i] != b
        invariant i <= n && b !in block[..i]
      {
        i := i + 1;
      }
      block[i] := b;
      added := i == n;
      if added { n := n + 1; }
    }

    /** log_write of a buffer whose data the caller has changed. */
    method LogWrite(op: OpId, b: nat, data: Block) returns (r: LogWriteResult)
      requires Ok() && phase.Idle? && b < |disk| && !InLog(p, b)
      requires outstanding >= 1 ==> op in active
      modifies this`n, block, this`cache, this`active, this`run
      ensures r == if old(TooBig(p, Snap().m)) then PanicTooBig else if old(outstanding) < 1 then PanicOutsideTrans else Logged
      ensures r == PanicTooBig <==> old(n) >= LOGSIZE || old(n) >= p.size - 1
      ensures r != Logged ==> unchanged(this) && unchanged(block)
      ensures r == Logged ==> Ok() && run == old(run) + [LogMachine.LogWrite(op, b, data)]
      ensures r == Logged ==> View(p, Snap().m) == old(View(p, Snap().m))[b := data]
    {
      hide Exec, Valid, Initial, View, Data, GoodList, Listable;
      if n >= LOGSIZE || n >= p.size - 1 {
        return PanicTooBig;
      }
      if outstanding < 1 {
        return PanicOutsideTrans;
      }
      ghost var l := LogMachine.LogWrite(op, b, data);
      WriteReady(p, s0, run, l);
      var added := Absorb(b);
      if added { active := active[op := active[op] + 1]; }
      cache := cache[b := Buf(data, true)];
      run := run + [l];
      r := Logged;
    }
  }

  function Repeat(l: Label, k: nat): seq<Label> { seq(k, _ => l) }

  /** The block writes of commit() for n logged blocks. */
  function CommitLabels(n: nat): seq<Label> {
    if n == 0 then [] else Repeat(CopyToLog, n) + [CommitHead] + Repeat(InstallOne, n) + [ClearHead]
  }

  function EndLabels(op: OpId, n: nat, last: bool): seq<Label> {
    [LogMachine.EndOp(op)] + if last then CommitLabels(n) + [FinishCommit] else []
  }

  predicate QuietLabel(l: Label) {
    !l.LogWrite? && !l.Crash?
  }

  /** Only log_write and a crash change what the file system holds. */
  lemma {:induction false} Quiet(p: Layout, s0: State, run: seq<Label>, ls: seq<Label>)
    requires Initial(p, s0) && Valid(p, s0, run + ls) && forall i :: 0 <= i < |ls| ==> QuietLabel(ls[i])
    ensures Valid(p, s0, run) && Volatile(p, Exec(p, s0, run + ls).m) == Volatile(p, Exec(p, s0, run).m)
    decreases |ls|
  {
    if ls == [] {
      assert run + ls == run;
    } else {
      var init := ls[..|ls|-1];
      assert (run + ls)[..|run + ls|-1] == run + init;
      Quiet(p, s0, run, init);
      Reachable(p, s0, run + init);
      StepRefines(p, Exec(p, s0, run + init), ls[|ls|-1]);
    }
  }

  /** Once commit or recovery is over, the disk and the view agree on what was held before. */
  lemma Settled(p: Layout, s0: State, run: seq<Label>, ls: seq<Label>)
    requires Initial(p, s0) && Valid(p, s0, run + ls) && forall i :: 0 <= i < |ls| ==> QuietLabel(ls[i])
    requires var s := Exec(p, s0, run + ls); s.m.lh == [] && (s.m.phase.Finishing? || s.m.phase.Idle?)
    ensures Valid(p, s0, run)
    ensures var m := Exec(p, s0, run + ls).m;
      View(p, m) == Volatile(p, Exec(p, s0, run).m) && Durable(p, m.disk) == View(p, m)
  {
    Quiet(p, s0, run, ls);
    Reachable(p, s0, run + ls);
    CleanDurable(p, Exec(p, s0, run + ls).m);
  }

  lemma EndSettled(p: Layout, s0: State, run: seq<Label>, ls: seq<Label>)
    requires Initial(p, s0) && Valid(p, s0, run + ls) && forall i :: 0 <= i < |ls| ==> QuietLabel(ls[i])
    requires Valid(p, s0, run) && Exec(p, s0, run).m.phase.Idle? && Exec(p, s0, run + ls).m.phase.Idle?
    ensures var m := Exec(p, s0, run + ls).m;
      View(p, m) == View(p, Exec(p, s0, run).m) && (m.lh == [] ==> Durable(p, m.disk) == View(p, m))
  {
    Quiet(p, s0, run, ls);
    if Exec(p, s0, run + ls).m.lh == [] { Settled(p, s0, run, ls); }
  }

  lemma FinishReady(p: Layout, s0: State, run: seq<Label>)
    requires Initial(p, s0) && Valid(p, s0, run) && Exec(p, s0, run).m.phase.Finishing?
    ensures var s, ls := Exec(p, s0, run), run + [FinishCommit];
      Valid(p, s0, ls) && Exec(p, s0, ls) == s.(m := s.m.(phase := Idle), committing := false, waiting := {})
  {
    Extend(p, s0, run, FinishCommit);
  }

  // ---- what each step finds and leaves, read off the invariant ----

  /** The next block to copy and its log block are on the disk, and different. */
  lemma CopyReady(p: Layout, s: State, tail: nat)
    requires Inv(p, s)
    requires s.m.phase == Logging(tail) || (s.m.phase.Installing? && s.m.phase.tail == tail)
    ensures tail < |s.m.lh| && s.m.lh[tail] < |s.m.disk| && p.start + tail + 1 < |s.m.disk|
    ensures s.m.lh[tail] != p.start + tail + 1
    ensures Enabled(p, s, if s.m.phase.Logging? then CopyToLog else InstallOne)
  {
    assert !InLog(p, s.m.lh[tail]);
  }

  lemma CopyReadyRun(p: Layout, s0: State, run: seq<Label>, tail: nat)
    requires Initial(p, s0) && Valid(p, s0, run)
    requires var ph := Exec(p, s0, run).m.phase; ph == Logging(tail) || (ph.Installing? && ph.tail == tail)
    ensures var s := Exec(p, s0, run);
      && tail < |s.m.lh| && s.m.lh[tail] < |s.m.disk| && p.start + tail + 1 < |s.m.disk|
      && s.m.lh[tail] != p.start + tail + 1
      && Enabled(p, s, if s.m.phase.Logging? then CopyToLog else InstallOne)
  {
    Reachable(p, s0, run);
    CopyReady(p, Exec(p, s0, run), tail);
  }

  /** s after `to` has been overwritten with `from`, and the phase moved on. */
  ghost predicate AfterCopying(s: State, from: nat, to: nat, next: Phase, t: State) {
    && to < |s.m.disk|
    && t.m.disk == s.m.disk[to := Data(s.m, from)]
    && t.m.cache == Bread(s.m, from).cache[to := Buf(Data(s.m, from), false)]
    && t == s.(m := Store(t.m.disk, t.m.cache, s.m.lh, next))
  }

  lemma CopyApplied(p: Layout, s: State)
    requires Enabled(p, s, CopyToLog)
    ensures AfterCopying(s, s.m.lh[s.m.phase.tail], p.start + s.m.phase.tail + 1,
                         AfterCopy(s.m.phase.tail + 1, |s.m.lh|), Apply(p, s, CopyToLog))
  {
  }

  lemma InstallApplied(p: Layout, s: State)
    requires Enabled(p, s, InstallOne)
    ensures AfterCopying(s, p.start + s.m.phase.tail + 1, s.m.lh[s.m.phase.tail],
                         AfterInstall(s.m.phase.tail + 1, |s.m.lh|, s.m.phase.recovering), Apply(p, s, InstallOne))
  {
  }

  lemma CanCommit(p: Layout, s0: State, run: seq<Label>)
    requires Initial(p, s0) && Valid(p, s0, run) && Exec(p, s0, run).m.phase.Committing?
    ensures var s, ls := Exec(p, s0, run), run + [CommitHead];
      && p.start < |s.m.disk| && Listable(s.m.lh) && Valid(p, s0, ls)
      && Exec(p, s0, ls) == s.(m := WriteHead(p, s.m, s.m.lh, AfterInstall(0, |s.m.lh|, false)))
  {
    Reachable(p, s0, run);
    Extend(p, s0, run, CommitHead);
  }

  lemma CanErase(p: Layout, s0: State, run: seq<Label>)
    requires Initial(p, s0) && Valid(p, s0, run) && Exec(p, s0, run).m.phase.Clearing?
    ensures var s, ls := Exec(p, s0, run), run + [ClearHead];
      && p.start < |s.m.disk| && Valid(p, s0, ls)
      && Exec(p, s0, ls) == s.(m := WriteHead(p, s.m, [], if s.m.phase.recovering then Idle else Finishing))
  {
    Reachable(p, s0, run);
    Extend(p, s0, run, ClearHead);
  }

  lemma CanRead(p: Layout, s0: State, run: seq<Label>)
    requires Initial(p, s0) && Valid(p, s0, run) && Exec(p, s0, run).m.phase.Booting?
    ensures var s, ls := Exec(p, s0, run), run + [ReadHead];
      && HeaderFits(Data(s.m, p.start)) && Valid(p, s0, ls)
      && Exec(p, s0, ls) == s.(m := LoadHead(Bread(s.m, p.start), HeaderList(Data(s.m, p.start))))
  {
    Reachable(p, s0, run);
    assert !Dirty(Exec(p, s0, run).m, p.start);
    Extend(p, s0, run, ReadHead);
  }

  lemma EndOpReady(p: Layout, s0: State, run: seq<Label>, op: OpId)
    requires Initial(p, s0) && Valid(p, s0, run) && Exec(p, s0, run).m.phase.Idle? && op in Exec(p, s0, run).active
    ensures var s, ls := Exec(p, s0, run), run + [LogMachine.EndOp(op)];
      !s.committing && Valid(p, s0, ls) && Exec(p, s0, ls) == Apply(p, s, LogMachine.EndOp(op))
  {
    Reachable(p, s0, run);
    Extend(p, s0, run, LogMachine.EndOp(op));
  }

  lemma WriteReady(p: Layout, s0: State, run: seq<Label>, l: Label)
    requires Initial(p, s0) && Valid(p, s0, run) && l.LogWrite? && Enabled(p, Exec(p, s0, run), l)
    ensures var s, ls := Exec(p, s0, run), run + [l];
      && Valid(p, s0, ls) && Exec(p, s0, ls) == Apply(p, s, l)
      && View(p, Exec(p, s0, ls).m) == View(p, s.m)[l.b := l.data]
  {
    Reachable(p, s0, run);
    Extend(p, s0, run, l);
    StepRefines(p, Exec(p, s0, run), l);
  }
}
