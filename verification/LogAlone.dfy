/** One operation by itself: from an empty log on, only it calls log_write, and it calls end_op
    after its last log_write.  Then a crash at any time leaves all of its writes or none. */
module LogAlone {
  import opened LogMachine
  import opened LogProof
  import opened LogRuns

  /** The calls of log_write among ls[k..j]. */
  function Issued(ls: seq<Label>, k: nat, j: nat): nat
    requires j <= |ls|
  {
    if j <= k then 0 else Issued(ls, k, j - 1) + if ls[j - 1].LogWrite? then 1 else 0
  }

  /** Label j is no log_write but the next of ws, and the operation ends only when ws is done. */
  predicate Obeys(ls: seq<Label>, k: nat, op: OpId, ws: seq<Write>, j: nat)
    requires j < |ls|
  {
    var n := Issued(ls, k, j);
    && (ls[j].LogWrite? ==> n < |ws| && ls[j] == LogWrite(op, ws[n].b, ws[n].data))
    && (ls[j] == EndOp(op) ==> n == |ws|)
  }

  predicate Alone(ls: seq<Label>, k: nat, op: OpId, ws: seq<Write>) {
    forall j: nat :: k <= j < |ls| ==> Obeys(ls, k, op, ws, j)
  }

  lemma {:induction false} IssuedPrefix(ls: seq<Label>, k: nat, m: nat, j: nat)
    requires j <= m <= |ls|
    ensures Issued(ls[..m], k, j) == Issued(ls, k, j)
    decreases j
  {
    if j > k { IssuedPrefix(ls, k, m, j - 1); }
  }

  lemma AlonePrefix(ls: seq<Label>, k: nat, op: OpId, ws: seq<Write>, m: nat)
    requires Alone(ls, k, op, ws) && m <= |ls|
    ensures Alone(ls[..m], k, op, ws)
  {
    forall j: nat | k <= j < m ensures Obeys(ls[..m], k, op, ws, j) {
      assert Obeys(ls, k, op, ws, j);
      IssuedPrefix(ls, k, m, j);
    }
  }

  /** The operation has made n of its writes, and none is durable; or it is over, and either all
      of them are or none will be. */
  ghost predicate Stage(p: Layout, h: Home, s: State, op: OpId, ws: seq<Write>, n: nat) {
    var d, v := Durable(p, s.m.disk), Volatile(p, s.m);
    || (n <= |ws| && d == h && v == ApplyWrites(h, ws[..n]) && (n == 0 || (op in s.used && (op in s.active || n == |ws|))))
    || ((d == h || d == ApplyWrites(h, ws)) && v == d && op in s.used && op !in s.active)
  }

  /** The operations that run and that have run, before and after a step. */
  ghost predicate OpsMove(s: State, l: Label, t: State) {
    match l
    case BeginOp(op) => op !in s.used && t.active.Keys == s.active.Keys + {op} && t.used == s.used + {op}
    case EndOp(op) => op in s.active && t.active.Keys == s.active.Keys - {op} && t.used == s.used
    case Crash => t.active == map[] && t.used == s.used
    case CommitHead => s.active == map[] && t.active == map[] && t.used == s.used
    case LogWrite(op, b, data) => op in s.active && t.active.Keys == s.active.Keys && t.used == s.used
    case _ => t.active.Keys == s.active.Keys && t.used == s.used
  }

  lemma OpsStep(p: Layout, s: State, l: Label)
    requires OpInv(s) && Enabled(p, s, l)
    ensures OpsMove(s, l, Apply(p, s, l))
  {
    hide Move, LhOnDisk, HeaderFits;
  }

  lemma StageStep(p: Layout, h: Home, s: State, l: Label, t: State, op: OpId, ws: seq<Write>, n: nat)
    requires Stage(p, h, s, op, ws, n) && OpsMove(s, l, t) && Refines(p, s.m, l, t.m) && s.active.Keys <= s.used
    requires l.LogWrite? ==> n < |ws| && l == LogWrite(op, ws[n].b, ws[n].data)
    requires l == EndOp(op) ==> n == |ws|
    ensures Stage(p, h, t, op, ws, if l.LogWrite? then n + 1 else n)
  {
    hide Durable, Volatile;
    assert ws[..|ws|] == ws;
    if l.LogWrite? {
      assert ws[..n + 1][..n] == ws[..n];
    }
  }

  /** Nothing is listed, so what is on disk is what everybody sees. */
  ghost predicate Quiescent(s: State) { s.m.phase.Idle? && s.m.lh == [] }

  lemma StartsClean(p: Layout, s0: State, ls: seq<Label>)
    requires Initial(p, s0) && Valid(p, s0, ls) && Quiescent(Exec(p, s0, ls))
    ensures var s := Exec(p, s0, ls); Volatile(p, s.m) == Durable(p, s.m.disk)
  {
    hide Inv, Valid, Exec, Initial, Volatile, Durable;
    CrashAtomicity(p, s0, ls);
  }

  lemma {:induction false} StageRun(p: Layout, s0: State, ls: seq<Label>, k: nat, op: OpId, ws: seq<Write>)
    requires Initial(p, s0) && Valid(p, s0, ls) && k <= |ls| && Alone(ls, k, op, ws)
    requires Valid(p, s0, ls[..k]) && Quiescent(Exec(p, s0, ls[..k]))
    ensures Stage(p, Durable(p, Exec(p, s0, ls[..k]).m.disk), Exec(p, s0, ls), op, ws, Issued(ls, k, |ls|))
    decreases |ls|
  {
    hide Initial, Enabled, Apply, Durable, Volatile, Stage, Obeys, Alone;
    if k == |ls| {
      assert ls[..k] == ls;
      StartsClean(p, s0, ls);
      StageNone(p, Exec(p, s0, ls), op, ws);
    } else {
      var us, l := ls[..|ls| - 1], ls[|ls| - 1];
      assert us[..k] == ls[..k];
      AlonePrefix(ls, k, op, ws, |us|);
      StageRun(p, s0, us, k, op, ws);
      IssuedPrefix(ls, k, |us|, |us|);
      LastObeys(ls, k, op, ws);
      var s := Exec(p, s0, us);
      Reachable(p, s0, us);
      OpsStep(p, s, l);
      StepRefines(p, s, l);
      StageStep(p, Durable(p, Exec(p, s0, ls[..k]).m.disk), s, l, Apply(p, s, l), op, ws, Issued(us, k, |us|));
    }
  }

  lemma LastObeys(ls: seq<Label>, k: nat, op: OpId, ws: seq<Write>)
    requires k < |ls| && Alone(ls, k, op, ws)
    ensures Obeys(ls, k, op, ws, |ls| - 1)
    ensures var n, l := Issued(ls, k, |ls| - 1), ls[|ls| - 1];
      && (l.LogWrite? ==> n < |ws| && l == LogWrite(op, ws[n].b, ws[n].data)) && (l == EndOp(op) ==> n == |ws|)
      && Issued(ls, k, |ls|) == if l.LogWrite? then n + 1 else n
  {
  }

  lemma StageNone(p: Layout, s: State, op: OpId, ws: seq<Write>)
    requires Volatile(p, s.m) == Durable(p, s.m.disk)
    ensures Stage(p, Durable(p, s.m.disk), s, op, ws, 0)
  {
    hide Durable, Volatile;
    assert ws[..0] == [];
  }

  /** All or nothing: whatever happens after point k, and whenever the machine stops, what recovery
      will restore is the blocks as they were at k, or as the whole operation left them. */
  lemma AllOrNothing(p: Layout, s0: State, ls: seq<Label>, k: nat, op: OpId, ws: seq<Write>)
    requires Initial(p, s0) && Valid(p, s0, ls) && k <= |ls| && Alone(ls, k, op, ws)
    requires Valid(p, s0, ls[..k]) && Quiescent(Exec(p, s0, ls[..k]))
    ensures var h, d := Durable(p, Exec(p, s0, ls[..k]).m.disk), Durable(p, Exec(p, s0, ls).m.disk);
      d == h || d == ApplyWrites(h, ws)
  {
    hide Initial, Valid, Exec, Alone, Durable;
    StageRun(p, s0, ls, k, op, ws);
  }

  // ---- such runs exist ----

  /** The operation is running alone, has made n writes, and can go on. */
  ghost predicate Going(p: Layout, s: State, op: OpId, n: nat, disk: nat) {
    s.m.phase.Idle? && op in s.active && s.outstanding == 1 && !s.committing && |s.m.lh| <= n && |s.m.disk| == disk
  }

  lemma GoOn(p: Layout, s: State, op: OpId, n: nat, w: Write)
    requires Going(p, s, op, n, |s.m.disk|) && n < LOGSIZE && n < p.size - 1 && w.b < |s.m.disk| && !InLog(p, w.b)
    ensures var l := LogWrite(op, w.b, w.data); Enabled(p, s, l) && Going(p, Apply(p, s, l), op, n + 1, |s.m.disk|)
  {
  }

  lemma AloneNext(ls: seq<Label>, k: nat, op: OpId, ws: seq<Write>, l: Label)
    requires k <= |ls| && Alone(ls, k, op, ws)
    requires var n := Issued(ls, k, |ls|); (l.LogWrite? ==> n < |ws| && l == LogWrite(op, ws[n].b, ws[n].data)) && (l == EndOp(op) ==> n == |ws|)
    ensures Alone(ls + [l], k, op, ws) && Issued(ls + [l], k, |ls| + 1) == Issued(ls, k, |ls|) + if l.LogWrite? then 1 else 0
  {
    var us := ls + [l];
    assert us[..|ls|] == ls;
    IssuedPrefix(us, k, |ls|, |ls|);
    forall j: nat | k <= j < |us| ensures Obeys(us, k, op, ws, j) {
      IssuedPrefix(us, k, |ls|, j);
      if j < |ls| { assert Obeys(ls, k, op, ws, j); }
    }
  }

  /** From an empty log, every list of writes that fits can be written by one operation. */
  lemma {:induction false} Performed(p: Layout, s0: State, start: seq<Label>, op: OpId, ws: seq<Write>, n: nat) returns (ls: seq<Label>)
    requires Initial(p, s0) && Valid(p, s0, start) && n <= |ws| <= LOGSIZE && |ws| < p.size
    requires var s := Exec(p, s0, start); Quiescent(s) && s.active == map[] && op !in s.used && op !in s.waiting
    requires forall i :: 0 <= i < |ws| ==> ws[i].b < |Exec(p, s0, start).m.disk| && !InLog(p, ws[i].b)
    ensures Valid(p, s0, ls) && |start| <= |ls| && ls[..|start|] == start && Alone(ls, |start|, op, ws)
    ensures Issued(ls, |start|, |ls|) == n && Going(p, Exec(p, s0, ls), op, n, |Exec(p, s0, start).m.disk|)
    decreases n
  {
    hide Initial, Valid, Exec, Enabled, Apply, Alone, Going;
    if n == 0 {
      Starting(p, s0, start, op);
      Extend(p, s0, start, BeginOp(op));
      AloneNone(start, op, ws);
      AloneNext(start, |start|, op, ws, BeginOp(op));
      ls := start + [BeginOp(op)];
    } else {
      var us := Performed(p, s0, start, op, ws, n - 1);
      var w := ws[n - 1];
      GoingDisk(p, Exec(p, s0, us), op, n - 1, |Exec(p, s0, start).m.disk|);
      GoOn(p, Exec(p, s0, us), op, n - 1, w);
      Extend(p, s0, us, LogWrite(op, w.b, w.data));
      AloneNext(us, |start|, op, ws, LogWrite(op, w.b, w.data));
      ls := us + [LogWrite(op, w.b, w.data)];
      assert ls[..|start|] == us[..|start|];
    }
  }

  lemma GoingDisk(p: Layout, s: State, op: OpId, n: nat, disk: nat)
    requires Going(p, s, op, n, disk)
    ensures |s.m.disk| == disk
  {
  }

  lemma AloneNone(ls: seq<Label>, op: OpId, ws: seq<Write>)
    ensures Alone(ls, |ls|, op, ws) && Issued(ls, |ls|, |ls|) == 0
  {
  }

  lemma Starting(p: Layout, s0: State, ls: seq<Label>, op: OpId)
    requires Initial(p, s0) && Valid(p, s0, ls)
    requires var s := Exec(p, s0, ls); Quiescent(s) && s.active == map[] && op !in s.used && op !in s.waiting
    ensures var s := Exec(p, s0, ls);
      Enabled(p, s, BeginOp(op)) && Going(p, Apply(p, s, BeginOp(op)), op, 0, |s.m.disk|)
  {
    Reachable(p, s0, ls);
  }
}
