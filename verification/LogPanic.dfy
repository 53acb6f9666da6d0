/** When log_write panics with "too big a transaction". */
module LogPanic {
  import opened Blocks
  import opened LogMachine
  import opened LogProof
  import opened LogRuns
  import opened LogBudget

  /** The log_write calls of an operation in a run, absorbed ones included. */
  function Calls(ls: seq<Label>, op: OpId): nat {
    if ls == [] then 0
    else
      Calls(ls[..|ls|-1], op) + if ls[|ls|-1].LogWrite? && ls[|ls|-1].op == op then 1 else 0
  }

  ghost function CallMap(s: State, ls: seq<Label>): map<OpId, nat> {
    map op | op in s.active :: Calls(ls, op)
  }

  ghost predicate CallInv(s: State, ls: seq<Label>) {
    && (forall op :: Calls(ls, op) > 0 ==> op in s.used)
    && (s.m.phase.Idle? ==> |s.m.lh| + Unspent(MAXOPBLOCKS, CallMap(s, ls)) <= LOGSIZE)
  }

  ghost predicate WithinBudget(ls: seq<Label>) {
    forall op :: Calls(ls, op) <= MAXOPBLOCKS
  }

  lemma BudgetPrefix(ls: seq<Label>)
    requires ls != [] && WithinBudget(ls)
    ensures WithinBudget(ls[..|ls|-1])
  {
    var init := ls[..|ls|-1];
    forall op ensures Calls(init, op) <= MAXOPBLOCKS { assert Calls(ls, op) <= MAXOPBLOCKS; }
  }

  lemma CallBegin(s: State, ls: seq<Label>, op: OpId, t: State)
    requires OpInv(s) && CallInv(s, ls) && WithinBudget(ls)
    requires s.m.phase.Idle? && op !in s.used && Admits(s)
    requires t == Account(s, BeginOp(op), s.m)
    ensures CallInv(t, ls)
  {
    var m := CallMap(s, ls);
    assert CallMap(t, ls) == m[op := 0];
    assert s.outstanding <= 2;
    UnspentSet(MAXOPBLOCKS, m, op, 0);
    UnspentBound(MAXOPBLOCKS, m);
    assert m.Keys == s.active.Keys;
  }

  lemma CallWrite(s: State, ls: seq<Label>, l: Label, t: State)
    requires OpInv(s) && CallInv(s, ls) && s.m.phase.Idle? && l.LogWrite? && l.op in s.active
    requires t.active.Keys == s.active.Keys && t.used == s.used && |t.m.lh| <= |s.m.lh| + 1
    requires forall op :: Calls(ls + [l], op) == Calls(ls, op) + if op == l.op then 1 else 0
    ensures CallInv(t, ls + [l])
  {
    var m := CallMap(s, ls);
    assert CallMap(t, ls + [l]) == m[l.op := Calls(ls, l.op) + 1];
    UnspentSet(MAXOPBLOCKS, m, l.op, Calls(ls, l.op) + 1);
  }

  lemma CallEnd(s: State, ls: seq<Label>, op: OpId, t: State)
    requires OpInv(s) && CallInv(s, ls) && WithinBudget(ls) && s.m.phase.Idle? && op in s.active
    requires t.active == s.active - {op} && t.used == s.used && t.m.lh == s.m.lh
    ensures CallInv(t, ls)
  {
    var m := CallMap(s, ls);
    assert CallMap(t, ls) == m - {op};
    UnspentRemove(MAXOPBLOCKS, m, op);
  }

  lemma CallOther(p: Layout, s: State, ls: seq<Label>, l: Label, t: State)
    requires Inv(p, s) && CallInv(s, ls) && Enabled(p, s, l) && t == Apply(p, s, l) && StepOk(p, s, l)
    requires !l.BeginOp? && !l.LogWrite? && !l.EndOp?
    ensures CallInv(t, ls)
  {
    Quiet(p, s, l);
    assert OpInv(s) && OpInv(t);
    CallQuiet(s, ls, t);
  }

  lemma CallQuiet(s: State, ls: seq<Label>, t: State)
    requires OpInv(s) && OpInv(t) && CallInv(s, ls) && t.used == s.used
    requires (t.active == s.active && (s.m.phase.Idle? ==> t.m.lh == s.m.lh)) || t.active == map[]
    ensures CallInv(t, ls)
  {
    if t.active == s.active {
      assert CallMap(t, ls) == CallMap(s, ls);
    } else {
      assert CallMap(t, ls) == map[];
    }
  }

  lemma SameCalls(ls: seq<Label>, l: Label)
    ensures forall op :: Calls(ls + [l], op) == Calls(ls, op) + if l.LogWrite? && l.op == op then 1 else 0
  {
    assert (ls + [l])[..|ls|] == ls;
  }

  lemma CallInvSame(t: State, ls: seq<Label>, ms: seq<Label>)
    requires CallInv(t, ls) && forall op :: Calls(ms, op) == Calls(ls, op)
    ensures CallInv(t, ms)
  {
    assert CallMap(t, ms) == CallMap(t, ls);
  }

  lemma CallStep(p: Layout, s: State, ls: seq<Label>, l: Label, t: State)
    requires Inv(p, s) && CallInv(s, ls) && WithinBudget(ls) && Enabled(p, s, l) && t == Apply(p, s, l)
    ensures CallInv(t, ls + [l])
  {
    SameCalls(ls, l);
    if l.LogWrite? {
      assert t.active.Keys == s.active.Keys;
      CallWrite(s, ls, l, t);
    } else {
      if l.BeginOp? { CallBegin(s, ls, l.op, t); }
      else if l.EndOp? { CallEnd(s, ls, l.op, t); }
      else { StepRefines(p, s, l); CallOther(p, s, ls, l, t); }
      CallInvSame(t, ls, ls + [l]);
    }
  }

  lemma {:induction false} CallsFit(p: Layout, s0: State, ls: seq<Label>)
    requires Initial(p, s0) && Valid(p, s0, ls) && WithinBudget(ls)
    ensures CallInv(Exec(p, s0, ls), ls)
    decreases |ls|
  {
    if ls == [] {
      assert CallMap(s0, ls) == map[];
    } else {
      var init := ls[..|ls|-1];
      BudgetPrefix(ls);
      CallsFit(p, s0, init);
      Reachable(p, s0, init);
      CallStep(p, Exec(p, s0, init), init, ls[|ls|-1], Exec(p, s0, ls));
      assert init + [ls[|ls|-1]] == ls;
    }
  }

  /** No run in which every operation calls log_write at most MAXOPBLOCKS times panics. */
  ghost predicate PanicFree(p: Layout) {
    forall s0, ls, op ::
      Initial(p, s0) && Valid(p, s0, ls) && WithinBudget(ls)
      && Exec(p, s0, ls).m.phase.Idle? && op in Exec(p, s0, ls).active && Calls(ls, op) < MAXOPBLOCKS
      ==> !TooBig(p, Exec(p, s0, ls).m)
  }

  lemma BigLogSuffices(p: Layout, s0: State, ls: seq<Label>, op: OpId)
    requires p.size > LOGSIZE && Initial(p, s0) && Valid(p, s0, ls) && WithinBudget(ls)
    requires Exec(p, s0, ls).m.phase.Idle? && op in Exec(p, s0, ls).active && Calls(ls, op) < MAXOPBLOCKS
    ensures !TooBig(p, Exec(p, s0, ls).m)
  {
    CallsFit(p, s0, ls);
    var m := CallMap(Exec(p, s0, ls), ls);
    UnspentRemove(MAXOPBLOCKS, m, op);
    UnspentBound(MAXOPBLOCKS, m - {op});
  }

  // ---- a run that fills the log: three operations, ten new blocks each ----

  ghost function Blank(p: Layout): State {
    State(Store(seq(p.start + p.size + LOGSIZE, _ => ZeroBlock()), map[], [], Booting), 0, false, map[], {}, {})
  }

  function Fresh(p: Layout, k: nat): nat { p.start + p.size + k }

  ghost function Filling(p: Layout, k: nat): seq<Label> {
    if k == 0 then [ReadHead, ClearHead, BeginOp(0), BeginOp(1), BeginOp(2)]
    else Filling(p, k - 1) + [LogWrite((k - 1) / 10, Fresh(p, k - 1), ZeroBlock())]
  }

  function Share(op: nat, k: nat): nat {
    if k <= 10 * op then 0 else if k >= 10 * op + 10 then 10 else k - 10 * op
  }

  ghost predicate Filled(p: Layout, s: State, k: nat) {
    && s.m.phase.Idle? && s.outstanding == 3 && !s.committing
    && |s.m.disk| == p.start + p.size + LOGSIZE
    && |s.m.lh| == k && (forall i :: 0 <= i < k ==> s.m.lh[i] == Fresh(p, i))
    && s.active == map[0 := Share(0, k), 1 := Share(1, k), 2 := Share(2, k)]
  }

  lemma BlankInitial(p: Layout)
    requires 1 <= p.size && p.start + p.size + LOGSIZE <= TWO32
    ensures Initial(p, Blank(p)) && Hdr(p, Blank(p).m) == []
  {
  }

  lemma FillStart(p: Layout)
    requires 1 <= p.size && p.start + p.size + LOGSIZE <= TWO32
    ensures Valid(p, Blank(p), Filling(p, 0)) && Filled(p, Exec(p, Blank(p), Filling(p, 0)), 0)
  {
    var s0, l0 := Blank(p), [ReadHead, ClearHead];
    BlankInitial(p);
    InitialInv(p, s0);
    RecoveryCompletes(p, s0);
    assert Installs(|Hdr(p, s0.m)|) + [ClearHead] == l0;
    ReadClear(p, s0);
    StartOps(p, s0, l0);
    assert Filling(p, 0) == l0 + [BeginOp(0)] + [BeginOp(1)] + [BeginOp(2)];
  }

  /** The state after the first n operations have begun. */
  ghost predicate Started(p: Layout, s: State, n: nat) {
    && s.m.phase.Idle? && s.m.lh == [] && !s.committing && |s.m.disk| == p.start + p.size + LOGSIZE
    && s.outstanding == n
    && (forall op: nat :: op in s.active <==> op < n) && (forall op :: op in s.active ==> s.active[op] == 0)
    && (forall op: nat :: op in s.used <==> op < n) && s.waiting == {}
  }

  lemma StartStep(p: Layout, s: State, n: nat)
    requires Started(p, s, n) && n < 3
    ensures Enabled(p, s, BeginOp(n)) && Started(p, Apply(p, s, BeginOp(n)), n + 1)
  {
    var t := Apply(p, s, BeginOp(n));
    assert t == State(s.m, n + 1, false, s.active[n := 0], s.used + {n}, s.waiting);
  }

  lemma StartNext(p: Layout, s0: State, ls: seq<Label>, n: nat)
    requires Valid(p, s0, ls) && Started(p, Exec(p, s0, ls), n) && n < 3
    ensures Valid(p, s0, ls + [BeginOp(n)]) && Started(p, Exec(p, s0, ls + [BeginOp(n)]), n + 1)
  {
    StartStep(p, Exec(p, s0, ls), n);
    Extend(p, s0, ls, BeginOp(n));
  }

  lemma AllStarted(p: Layout, s: State)
    requires Started(p, s, 3)
    ensures Filled(p, s, 0)
  {
  }

  lemma StartOps(p: Layout, s0: State, l0: seq<Label>)
    requires Valid(p, s0, l0) && Started(p, Exec(p, s0, l0), 0)
    ensures var ls := l0 + [BeginOp(0)] + [BeginOp(1)] + [BeginOp(2)];
      Valid(p, s0, ls) && Filled(p, Exec(p, s0, ls), 0)
  {
    hide Started;
    StartNext(p, s0, l0, 0);
    StartNext(p, s0, l0 + [BeginOp(0)], 1);
    StartNext(p, s0, l0 + [BeginOp(0)] + [BeginOp(1)], 2);
    AllStarted(p, Exec(p, s0, l0 + [BeginOp(0)] + [BeginOp(1)] + [BeginOp(2)]));
  }

  lemma ReadClear(p: Layout, s0: State)
    requires Valid(p, s0, [ReadHead, ClearHead])
    ensures var s := Exec(p, s0, [ReadHead, ClearHead]);
      s.active == s0.active && s.used == s0.used && |s.m.disk| == |s0.m.disk|
      && s.outstanding == s0.outstanding && s.committing == s0.committing && s.waiting == s0.waiting
  {
    hide SetHeader, HeaderList, HeaderFits, Listable;
    var l0 := [ReadHead, ClearHead];
    assert l0[..1] == [ReadHead] && [ReadHead][..0] == [];
  }

  lemma FillNext(p: Layout, s: State, k: nat)
    requires Filled(p, s, k) && k < LOGSIZE && k < p.size - 1
    ensures var l := LogWrite(k / 10, Fresh(p, k), ZeroBlock());
      Enabled(p, s, l) && Filled(p, Apply(p, s, l), k + 1)
  {
    assert Fresh(p, k) !in s.m.lh;
  }

  lemma {:induction false} FillTo(p: Layout, k: nat)
    requires 1 <= p.size && p.start + p.size + LOGSIZE <= TWO32
    requires k <= LOGSIZE && k <= p.size - 1
    ensures Valid(p, Blank(p), Filling(p, k)) && Filled(p, Exec(p, Blank(p), Filling(p, k)), k)
    decreases k
  {
    if k == 0 {
      FillStart(p);
    } else {
      FillTo(p, k - 1);
      FillNext(p, Exec(p, Blank(p), Filling(p, k - 1)), k - 1);
      Extend(p, Blank(p), Filling(p, k - 1), LogWrite((k - 1) / 10, Fresh(p, k - 1), ZeroBlock()));
    }
  }

  lemma {:induction false} NoCalls(ls: seq<Label>, op: OpId)
    requires forall i :: 0 <= i < |ls| ==> !ls[i].LogWrite?
    ensures Calls(ls, op) == 0
  {
    if ls != [] { NoCalls(ls[..|ls|-1], op); }
  }

  lemma {:induction false} FillCalls(p: Layout, k: nat, op: OpId)
    requires k <= LOGSIZE
    ensures Calls(Filling(p, k), op) == if op < 3 then Share(op, k) else 0
    decreases k
  {
    if k == 0 {
      NoCalls(Filling(p, 0), op);
    } else {
      FillCalls(p, k - 1, op);
      var l := Filling(p, k);
      assert l[..|l|-1] == Filling(p, k - 1);
    }
  }

  /** With k blocks logged the region is full for k + 1 == p.size. */
  lemma FilledTooBig(p: Layout, s: State, k: nat)
    requires Filled(p, s, k) && k == p.size - 1 && k < LOGSIZE
    ensures s.m.phase.Idle? && k / 10 in s.active && TooBig(p, s.m)
  {
  }

  lemma FillingBudget(p: Layout, k: nat)
    requires k < LOGSIZE
    ensures WithinBudget(Filling(p, k)) && Calls(Filling(p, k), k / 10) < MAXOPBLOCKS
  {
    hide Filling;
    forall op ensures Calls(Filling(p, k), op) <= MAXOPBLOCKS { FillCalls(p, k, op); }
    FillCalls(p, k, k / 10);
  }

  lemma SmallLogPanics(p: Layout)
    requires 1 <= p.size <= LOGSIZE && p.start + p.size + LOGSIZE <= TWO32
    ensures !PanicFree(p)
  {
    hide Filling, Blank, Filled, Exec, Valid, TooBig, WithinBudget, Calls, Initial;
    var k := p.size - 1;
    BlankInitial(p);
    FillTo(p, k);
    FilledTooBig(p, Exec(p, Blank(p), Filling(p, k)), k);
    FillingBudget(p, k);
  }

  /** log_write is panic-free for operations within their budget exactly when the log region
      has a header and LOGSIZE data blocks.  mkfs makes it one block short (nlog = LOGSIZE). */
  lemma PanicFreeIff(p: Layout)
    requires 1 <= p.size && p.start + p.size + LOGSIZE <= TWO32
    ensures PanicFree(p) <==> p.size > LOGSIZE
  {
    if p.size > LOGSIZE {
      forall s0, ls, op |
        Initial(p, s0) && Valid(p, s0, ls) && WithinBudget(ls)
        && Exec(p, s0, ls).m.phase.Idle? && op in Exec(p, s0, ls).active && Calls(ls, op) < MAXOPBLOCKS
        ensures !TooBig(p, Exec(p, s0, ls).m)
      {
        BigLogSuffices(p, s0, ls, op);
      }
    } else {
      SmallLogPanics(p);
    }
  }
}
