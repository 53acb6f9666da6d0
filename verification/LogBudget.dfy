/** How many blocks the log lists when every operation adds a bounded number of them. */
module LogBudget {
  import opened LogMachine
  import opened LogProof
  import opened LogRuns

  // ---- sums over the running operations ----

  /** What running operations may still add, at cap entries each. */
  ghost function Unspent(cap: nat, active: map<OpId, nat>): int
    decreases |active|
  {
    if active == map[] then 0
    else
      var op :| op in active;
      assert (active - {op}).Keys == active.Keys - {op};
      cap - active[op] + Unspent(cap, active - {op})
  }

  lemma {:induction false} UnspentRemove(cap: nat, active: map<OpId, nat>, op: OpId)
    requires op in active
    ensures Unspent(cap, active) == cap - active[op] + Unspent(cap, active - {op})
    decreases |active|
  {
    var k :| k in active && Unspent(cap, active) == cap - active[k] + Unspent(cap, active - {k});
    assert (active - {k}).Keys == active.Keys - {k};
    assert (active - {op}).Keys == active.Keys - {op};
    if k != op {
      UnspentRemove(cap, active - {k}, op);
      UnspentRemove(cap, active - {op}, k);
      assert active - {k} - {op} == active - {op} - {k};
    }
  }

  lemma UnspentSet(cap: nat, active: map<OpId, nat>, op: OpId, n: nat)
    ensures Unspent(cap, active[op := n]) ==
      Unspent(cap, active) + (cap - n) - (if op in active then cap - active[op] else 0)
  {
    UnspentRemove(cap, active[op := n], op);
    assert active[op := n] - {op} == active - {op};
    if op in active {
      UnspentRemove(cap, active, op);
    } else {
      assert active - {op} == active;
    }
  }

  function Times(cap: nat, n: nat): nat { if n == 0 then 0 else cap + Times(cap, n - 1) }

  lemma {:induction false} UnspentBound(cap: nat, active: map<OpId, nat>)
    requires forall op :: op in active ==> active[op] <= cap
    ensures 0 <= Unspent(cap, active) <= Times(cap, |active|)
    decreases |active|
  {
    if active != map[] {
      var k :| k in active && Unspent(cap, active) == cap - active[k] + Unspent(cap, active - {k});
      assert (active - {k}).Keys == active.Keys - {k};
      UnspentBound(cap, active - {k});
    }
  }

  // ---- runs in which each operation adds at most cap entries ----

  /** A log_write that adds an entry comes from an operation that has added fewer than cap. */
  predicate Spends(s: State, l: Label, cap: nat) {
    l.LogWrite? && l.op in s.active && l.b !in s.m.lh ==> s.active[l.op] < cap
  }

  ghost predicate Frugal(p: Layout, s0: State, ls: seq<Label>, cap: nat)
    requires Valid(p, s0, ls)
    decreases |ls|
  {
    ls == [] || (Frugal(p, s0, ls[..|ls|-1], cap) && Spends(Exec(p, s0, ls[..|ls|-1]), ls[|ls|-1], cap))
  }

  /** The most begin_op lets the list grow to: ten blocks listed, and two operations beside. */
  function Ceiling(cap: nat): nat { MAXOPBLOCKS + 2 * cap }

  ghost predicate Spent(s: State, cap: nat) {
    && (forall op :: op in s.active ==> s.active[op] <= cap)
    && (s.m.phase.Idle? ==> |s.m.lh| + Unspent(cap, s.active) <= Ceiling(cap))
  }

  lemma SpentBegin(s: State, op: OpId, cap: nat)
    requires OpInv(s) && Spent(s, cap) && s.m.phase.Idle? && op !in s.used && Admits(s) && cap <= MAXOPBLOCKS
    ensures Spent(Account(s, BeginOp(op), s.m), cap)
  {
    UnspentSet(cap, s.active, op, 0);
    UnspentBound(cap, s.active);
    hide Unspent;
    assert s.outstanding == |s.active| <= 2;
    if s.outstanding == 0 {
      assert s.active == map[];
    } else if s.outstanding == 1 {
      assert Times(cap, 1) == cap;
    } else {
      assert Times(cap, 2) == cap + Times(cap, 1);
    }
  }

  lemma SpentWrite(s: State, l: Label, t: State, cap: nat)
    requires Spent(s, cap) && s.m.phase.Idle? && l.LogWrite? && l.op in s.active && Spends(s, l, cap)
    requires t == Account(s, l, t.m) && t.m.phase.Idle? && t.m.lh == if l.b in s.m.lh then s.m.lh else s.m.lh + [l.b]
    ensures Spent(t, cap)
  {
    if l.b !in s.m.lh {
      UnspentSet(cap, s.active, l.op, s.active[l.op] + 1);
    }
  }

  lemma SpentEnd(s: State, op: OpId, t: State, cap: nat)
    requires Spent(s, cap) && s.m.phase.Idle? && op in s.active
    requires t.active == s.active - {op} && t.m.lh == s.m.lh
    ensures Spent(t, cap)
  {
    UnspentRemove(cap, s.active, op);
  }

  lemma SpentStep(p: Layout, s: State, l: Label, cap: nat)
    requires Inv(p, s) && Spent(s, cap) && Enabled(p, s, l) && Spends(s, l, cap) && cap <= MAXOPBLOCKS
    ensures Spent(Apply(p, s, l), cap)
  {
    var t := Apply(p, s, l);
    match l
    case BeginOp(op) => SpentBegin(s, op, cap);
    case LogWrite(op, b, data) => SpentWrite(s, l, t, cap);
    case EndOp(op) => SpentEnd(s, op, t, cap);
    case _ => SpentOther(p, s, l, cap);
  }

  lemma SpentOther(p: Layout, s: State, l: Label, cap: nat)
    requires Inv(p, s) && Spent(s, cap) && Enabled(p, s, l) && !l.BeginOp? && !l.LogWrite? && !l.EndOp?
    ensures Spent(Apply(p, s, l), cap)
  {
    StepRefines(p, s, l);
    Quiet(p, s, l);
    hide StoreInv, Refines, Apply;
    assert Unspent(cap, map[]) == 0;
  }

  lemma Quiet(p: Layout, s: State, l: Label)
    requires Enabled(p, s, l) && !l.BeginOp? && !l.LogWrite? && !l.EndOp?
    ensures var t := Apply(p, s, l);
      t.used == s.used && ((t.active == s.active && (s.m.phase.Idle? ==> t.m.lh == s.m.lh)) || t.active == map[])
  {
    hide SetHeader, HeaderList, HeaderFits, Data, LhOnDisk;
  }

  lemma {:induction false} FrugalSpent(p: Layout, s0: State, ls: seq<Label>, cap: nat)
    requires Initial(p, s0) && Valid(p, s0, ls) && Frugal(p, s0, ls, cap) && cap <= MAXOPBLOCKS
    ensures Spent(Exec(p, s0, ls), cap)
    decreases |ls|
  {
    if ls != [] {
      var init := ls[..|ls|-1];
      FrugalSpent(p, s0, init, cap);
      Reachable(p, s0, init);
      hide Inv, Spent, Enabled, Apply;
      SpentStep(p, Exec(p, s0, init), ls[|ls|-1], cap);
    }
  }

  /** begin_op's test reserves enough: while each operation adds at most MAXOPBLOCKS entries, the
      listed blocks plus all unspent reservations fit the log. */
  lemma Reservation(p: Layout, s0: State, ls: seq<Label>)
    requires Initial(p, s0) && Valid(p, s0, ls) && Frugal(p, s0, ls, MAXOPBLOCKS)
    ensures var s := Exec(p, s0, ls);
      && |s.m.lh| <= LOGSIZE && (s.m.phase.Idle? ==> |s.m.lh| + Unspent(MAXOPBLOCKS, s.active) <= LOGSIZE)
      && (s.committing ==> s.outstanding == 0)
      && (s.active != map[] ==> !s.committing && s.outstanding > 0)
  {
    FrugalSpent(p, s0, ls, MAXOPBLOCKS);
    Reachable(p, s0, ls);
    SleepersWaitForSomeone(p, s0, ls);
  }
}
