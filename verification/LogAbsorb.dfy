/** When log_write panics although every operation keeps to a number of distinct blocks: it tests
    for space before it looks for the block in the list. */
module LogAbsorb {
  import opened Blocks
  import opened LogMachine
  import opened LogProof
  import opened LogRuns
  import opened LogBudget
  import opened LogPanic

  /** An operation that has added `added` entries may call log_write on b. */
  predicate MayWrite(s: State, op: OpId, b: nat, cap: nat) {
    s.m.phase.Idle? && op in s.active && (b in s.m.lh || s.active[op] < cap)
  }

  /** No call panics in runs in which each operation adds at most cap entries, and writes the
      blocks already listed as often as it likes. */
  ghost predicate AbsorbFree(p: Layout, cap: nat) {
    forall s0, ls, op, b ::
      Initial(p, s0) && Valid(p, s0, ls) && Frugal(p, s0, ls, cap) && MayWrite(Exec(p, s0, ls), op, b, cap)
      ==> !TooBig(p, Exec(p, s0, ls).m)
  }

  lemma SmallBudgetSuffices(p: Layout, s0: State, ls: seq<Label>, cap: nat)
    requires Initial(p, s0) && Valid(p, s0, ls) && Frugal(p, s0, ls, cap) && cap <= MAXOPBLOCKS
    requires Exec(p, s0, ls).m.phase.Idle? && Ceiling(cap) < LOGSIZE && Ceiling(cap) < p.size - 1
    ensures !TooBig(p, Exec(p, s0, ls).m)
  {
    FrugalSpent(p, s0, ls, cap);
    UnspentBound(cap, Exec(p, s0, ls).active);
  }

  // ---- a run that lists Ceiling(cap) blocks ----

  /** The first n fresh blocks are listed; active operations have added what the map says. */
  ghost predicate Stage(p: Layout, s: State, n: nat, active: map<OpId, nat>, top: nat) {
    && s.m.phase.Idle? && !s.committing && s.waiting == {}
    && |s.m.disk| == p.start + p.size + LOGSIZE
    && |s.m.lh| == n && (forall i :: 0 <= i < n ==> s.m.lh[i] == Fresh(p, i))
    && s.active == active && s.outstanding == |active|
    && forall op :: op in s.used ==> op < top
  }

  lemma StageBegin(p: Layout, s: State, n: nat, active: map<OpId, nat>, top: nat)
    requires Stage(p, s, n, active, top) && n + (|active| + 1) * MAXOPBLOCKS <= LOGSIZE && top !in active
    ensures Enabled(p, s, BeginOp(top)) && Stage(p, Apply(p, s, BeginOp(top)), n, active[top := 0], top + 1)
  {
    assert active[top := 0].Keys == active.Keys + {top};
  }

  lemma StageWrite(p: Layout, s: State, n: nat, active: map<OpId, nat>, top: nat, op: OpId)
    requires Stage(p, s, n, active, top) && op in active && n < LOGSIZE && n < p.size - 1
    ensures var l := LogWrite(op, Fresh(p, n), ZeroBlock());
      Enabled(p, s, l) && Stage(p, Apply(p, s, l), n + 1, active[op := active[op] + 1], top)
  {
    assert active[op := active[op] + 1].Keys == active.Keys;
    assert |active| >= 1 by { assert op in active.Keys; }
    assert Fresh(p, n) !in s.m.lh;
  }

  lemma StageEnd(p: Layout, s: State, n: nat, active: map<OpId, nat>, top: nat, op: OpId)
    requires Stage(p, s, n, active, top) && op in active && |active| >= 2
    ensures Enabled(p, s, EndOp(op)) && Stage(p, Apply(p, s, EndOp(op)), n, active - {op}, top)
  {
    assert (active - {op}).Keys == active.Keys - {op};
  }

  /** A frugal run from the blank disk to such a state. */
  ghost predicate RunTo(p: Layout, cap: nat, ls: seq<Label>, n: nat, active: map<OpId, nat>, top: nat) {
    Valid(p, Blank(p), ls) && Frugal(p, Blank(p), ls, cap) && Stage(p, Exec(p, Blank(p), ls), n, active, top)
  }

  lemma FrugalExtend(p: Layout, s0: State, ls: seq<Label>, l: Label, cap: nat)
    requires Valid(p, s0, ls) && Frugal(p, s0, ls, cap) && Enabled(p, Exec(p, s0, ls), l) && Spends(Exec(p, s0, ls), l, cap)
    ensures Valid(p, s0, ls + [l]) && Frugal(p, s0, ls + [l], cap) && Exec(p, s0, ls + [l]) == Apply(p, Exec(p, s0, ls), l)
  {
    Extend(p, s0, ls, l);
    assert (ls + [l])[..|ls|] == ls;
    hide Spends, Enabled, Apply;
  }

  lemma RunBegin(p: Layout, cap: nat, ls: seq<Label>, n: nat, active: map<OpId, nat>, top: nat)
    requires RunTo(p, cap, ls, n, active, top) && n + (|active| + 1) * MAXOPBLOCKS <= LOGSIZE && top !in active
    ensures RunTo(p, cap, ls + [BeginOp(top)], n, active[top := 0], top + 1)
  {
    var s := Exec(p, Blank(p), ls);
    StageBegin(p, s, n, active, top);
    hide Stage, Enabled, Apply;
    FrugalExtend(p, Blank(p), ls, BeginOp(top), cap);
  }

  lemma RunWrite(p: Layout, cap: nat, ls: seq<Label>, n: nat, active: map<OpId, nat>, top: nat, op: OpId)
    requires RunTo(p, cap, ls, n, active, top) && op in active && active[op] < cap && n < LOGSIZE && n < p.size - 1
    ensures RunTo(p, cap, ls + [LogWrite(op, Fresh(p, n), ZeroBlock())], n + 1, active[op := active[op] + 1], top)
  {
    var s := Exec(p, Blank(p), ls);
    var l := LogWrite(op, Fresh(p, n), ZeroBlock());
    StageWrite(p, s, n, active, top, op);
    assert Spends(s, l, cap);
    hide Stage, Enabled, Apply;
    FrugalExtend(p, Blank(p), ls, l, cap);
  }

  lemma RunEnd(p: Layout, cap: nat, ls: seq<Label>, n: nat, active: map<OpId, nat>, top: nat, op: OpId)
    requires RunTo(p, cap, ls, n, active, top) && op in active && |active| >= 2
    ensures RunTo(p, cap, ls + [EndOp(op)], n, active - {op}, top)
  {
    var s := Exec(p, Blank(p), ls);
    StageEnd(p, s, n, active, top, op);
    hide Stage, Enabled, Apply;
    FrugalExtend(p, Blank(p), ls, EndOp(op), cap);
  }

  lemma RunStart(p: Layout, cap: nat) returns (ls: seq<Label>)
    requires 1 <= p.size && p.start + p.size + LOGSIZE <= TWO32
    ensures RunTo(p, cap, ls, 0, map[], 0)
  {
    var s0 := Blank(p);
    ls := [ReadHead, ClearHead];
    BlankInitial(p);
    InitialInv(p, s0);
    RecoveryCompletes(p, s0);
    assert Installs(|Hdr(p, s0.m)|) + [ClearHead] == ls;
    ReadClear(p, s0);
    assert ls[..1] == [ReadHead] && [ReadHead][..0] == [];
    assert Frugal(p, s0, [ReadHead], cap);
  }

  /** Operation 0 begins and waits while n others come and go, a block each. */
  lemma {:induction false} RunOthers(p: Layout, cap: nat, n: nat) returns (ls: seq<Label>)
    requires 1 <= cap && 1 <= p.size && p.start + p.size + LOGSIZE <= TWO32 && n <= MAXOPBLOCKS && n <= p.size - 1
    ensures RunTo(p, cap, ls, n, map[0 := 0], n + 1)
    decreases n
  {
    hide RunTo;
    if n == 0 {
      ls := RunStart(p, cap);
      RunBegin(p, cap, ls, 0, map[], 0);
      ls := ls + [BeginOp(0)];
      assert map[][0 := 0] == map[0 := 0];
    } else {
      ls := RunOthers(p, cap, n - 1);
      var a: map<OpId, nat> := map[0 := 0];
      assert |a| == 1 && n !in a;
      RunBegin(p, cap, ls, n - 1, a, n);
      ls := ls + [BeginOp(n)];
      RunWrite(p, cap, ls, n - 1, a[n := 0], n + 1, n);
      ls := ls + [LogWrite(n, Fresh(p, n - 1), ZeroBlock())];
      assert a[n := 0][n := 1].Keys == {0, n};
      RunEnd(p, cap, ls, n, a[n := 0][n := 1], n + 1, n);
      ls := ls + [EndOp(n)];
      assert a[n := 0][n := 1] - {n} == a;
    }
  }

  /** Then two operations are left to use up their budgets. */
  lemma {:induction false} RunBoth(p: Layout, cap: nat, i: nat) returns (ls: seq<Label>)
    requires 1 <= cap <= MAXOPBLOCKS && i <= 2 * cap && MAXOPBLOCKS + i <= p.size - 1
    requires p.start + p.size + LOGSIZE <= TWO32
    ensures RunTo(p, cap, ls, MAXOPBLOCKS + i, Pair(cap, i), MAXOPBLOCKS + 2)
    decreases i
  {
    hide RunTo;
    if i == 0 {
      ls := RunOthers(p, cap, MAXOPBLOCKS);
      var a: map<OpId, nat> := map[0 := 0];
      assert |a| == 1;
      RunBegin(p, cap, ls, MAXOPBLOCKS, a, MAXOPBLOCKS + 1);
      ls := ls + [BeginOp(MAXOPBLOCKS + 1)];
      assert a[MAXOPBLOCKS + 1 := 0] == Pair(cap, 0);
    } else {
      ls := RunBoth(p, cap, i - 1);
      var op := if i <= cap then MAXOPBLOCKS + 1 else 0;
      var a := Pair(cap, i - 1);
      RunWrite(p, cap, ls, MAXOPBLOCKS + i - 1, a, MAXOPBLOCKS + 2, op);
      assert a[op := a[op] + 1] == Pair(cap, i);
      ls := ls + [LogWrite(op, Fresh(p, MAXOPBLOCKS + i - 1), ZeroBlock())];
    }
  }

  function Pair(cap: nat, i: nat): map<OpId, nat> {
    if i <= cap then map[0 := 0, MAXOPBLOCKS + 1 := i] else map[0 := i - cap, MAXOPBLOCKS + 1 := cap]
  }

  lemma LargeBudgetPanics(p: Layout, cap: nat)
    requires 1 <= cap <= MAXOPBLOCKS && 1 <= p.size && p.start + p.size + LOGSIZE <= TWO32
    requires Ceiling(cap) >= LOGSIZE || Ceiling(cap) >= p.size - 1
    ensures !AbsorbFree(p, cap)
  {
    hide RunTo, AbsorbFree, Initial, Blank;
    BlankInitial(p);
    var m := if p.size - 1 < LOGSIZE then p.size - 1 else LOGSIZE;
    if m <= MAXOPBLOCKS {
      var ls := RunOthers(p, cap, m);
      Witness(p, cap, ls, m, map[0 := 0], m + 1);
    } else {
      var ls := RunBoth(p, cap, m - MAXOPBLOCKS);
      Witness(p, cap, ls, m, Pair(cap, m - MAXOPBLOCKS), MAXOPBLOCKS + 2);
    }
  }

  lemma Witness(p: Layout, cap: nat, ls: seq<Label>, n: nat, active: map<OpId, nat>, top: nat)
    requires RunTo(p, cap, ls, n, active, top) && Initial(p, Blank(p)) && (n >= LOGSIZE || n >= p.size - 1) && 0 in active
    requires n > 0 || active[0] < cap
    ensures !AbsorbFree(p, cap)
  {
    hide Initial, Blank, Frugal;
    var s := Exec(p, Blank(p), ls);
    assert n > 0 ==> s.m.lh[0] == Fresh(p, 0);
    assert MayWrite(s, 0, Fresh(p, 0), cap);
    assert TooBig(p, s.m);
  }

  /** Operations that keep to cap distinct blocks are safe from the panic exactly when ten blocks
      and two budgets leave room below both limits of the guard.  For the MAXOPBLOCKS blocks the
      file system reserves they are never safe. */
  lemma AbsorbFreeIff(p: Layout, cap: nat)
    requires 1 <= cap <= MAXOPBLOCKS && 1 <= p.size && p.start + p.size + LOGSIZE <= TWO32
    ensures AbsorbFree(p, cap) <==> Ceiling(cap) < LOGSIZE && Ceiling(cap) < p.size - 1
  {
    if Ceiling(cap) < LOGSIZE && Ceiling(cap) < p.size - 1 {
      forall s0, ls, op, b |
        Initial(p, s0) && Valid(p, s0, ls) && Frugal(p, s0, ls, cap) && MayWrite(Exec(p, s0, ls), op, b, cap)
        ensures !TooBig(p, Exec(p, s0, ls).m)
      {
        SmallBudgetSuffices(p, s0, ls, cap);
      }
    } else {
      LargeBudgetPanics(p, cap);
    }
  }
}
