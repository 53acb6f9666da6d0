/** The log over whole runs: crash atomicity, recovery, and the operations that wait in begin_op. */
module LogRuns {
  import opened LogMachine
  import opened LogProof

  // ---- the ledger of a run ----

  ghost predicate Batches(s: State, g: Ledger) {
    && WholeOps(g)
    && (forall i, op :: 0 <= i < |g.batches| && Holds(g.batches[i].writes, op) ==> op in s.used && op !in s.active)
    && (forall op :: Holds(g.pending, op) ==> op in s.used)
  }

  /** Where a run has pending writes: only until the commit point, and exactly while blocks are listed. */
  ghost predicate PendingFits(s: State, g: Ledger) {
    if s.m.phase.Idle? then s.m.lh == [] <==> g.pending == []
    else s.m.phase.Logging? || s.m.phase.Committing? || g.pending == []
  }

  ghost predicate Contents(p: Layout, h: Home, s: State, g: Ledger) {
    && Durable(p, s.m.disk) == ApplyBatches(h, g.batches)
    && Volatile(p, s.m) == ApplyWrites(ApplyBatches(h, g.batches), g.pending)
  }

  ghost predicate LedgerInv(p: Layout, h: Home, s: State, g: Ledger) {
    Batches(s, g) && PendingFits(s, g) && Contents(p, h, s, g)
  }

  lemma HoldsAppend(ws: seq<Write>, w: Write)
    ensures forall op :: Holds(ws + [w], op) <==> Holds(ws, op) || op == w.op
  {
    forall op ensures Holds(ws + [w], op) <==> Holds(ws, op) || op == w.op {
      if Holds(ws, op) {
        var i :| 0 <= i < |ws| && ws[i].op == op;
        assert (ws + [w])[i].op == op;
      }
      assert (ws + [w])[|ws|] == w;
    }
  }

  lemma BatchesStep(p: Layout, s: State, l: Label, g: Ledger)
    requires Inv(p, s) && Enabled(p, s, l) && Batches(s, g)
    ensures Batches(Apply(p, s, l), Note(g, l))
  {
    hide StoreInv, Move, LhOnDisk, HeaderFits, TooBig;
    if l.LogWrite? {
      HoldsAppend(g.pending, Write(l.op, l.b, l.data));
    }
  }

  lemma ContentsStep(p: Layout, h: Home, s: State, l: Label, g: Ledger)
    requires Inv(p, s) && Enabled(p, s, l) && PendingFits(s, g) && Contents(p, h, s, g)
    requires Refines(p, s.m, l, Apply(p, s, l).m)
    ensures Contents(p, h, Apply(p, s, l), Note(g, l))
  {
    var n := Note(g, l);
    if l.CommitHead? || l.Crash? {
      assert n.batches[..|n.batches|-1] == g.batches;
    } else if l.LogWrite? {
      assert n.pending[..|n.pending|-1] == g.pending;
    }
  }

  lemma PendingStep(p: Layout, s: State, l: Label, g: Ledger)
    requires Inv(p, s) && Enabled(p, s, l) && PendingFits(s, g)
    ensures PendingFits(Apply(p, s, l), Note(g, l))
  {
  }

  lemma InitialInv(p: Layout, s: State)
    requires Initial(p, s)
    ensures Inv(p, s) && LedgerInv(p, Durable(p, s.m.disk), s, Ledger([], []))
  {
  }

  /** Crash atomicity over whole runs.  In every run, with crashes between any two steps
      (of commit or of recovery, any number of times), what a crash right now would leave
      after recovery is the initial disk changed by the committed batches in order and by
      nothing else, and no operation is split over two batches. */
  lemma {:induction false} CrashAtomicity(p: Layout, s0: State, ls: seq<Label>)
    requires Initial(p, s0) && Valid(p, s0, ls)
    ensures Inv(p, Exec(p, s0, ls))
    ensures LedgerInv(p, Durable(p, s0.m.disk), Exec(p, s0, ls), Notes(ls))
    decreases |ls|
  {
    if ls == [] {
      InitialInv(p, s0);
    } else {
      var init, l := ls[..|ls|-1], ls[|ls|-1];
      CrashAtomicity(p, s0, init);
      var s, g := Exec(p, s0, init), Notes(init);
      StepRefines(p, s, l);
      BatchesStep(p, s, l, g);
      ContentsStep(p, Durable(p, s0.m.disk), s, l, g);
      PendingStep(p, s, l, g);
    }
  }

  lemma Reachable(p: Layout, s0: State, ls: seq<Label>)
    requires Initial(p, s0) && Valid(p, s0, ls)
    ensures Inv(p, Exec(p, s0, ls))
  {
    CrashAtomicity(p, s0, ls);
  }

  // ---- recovery ----

  predicate RecoveryLabel(l: Label) {
    l.Crash? || l.ReadHead? || l.InstallOne? || l.ClearHead? || l.Fill? || l.Evict?
  }

  /** Recovery never changes what the committed batches amount to, however often it is interrupted. */
  lemma {:induction false} RecoveryNotes(h: Home, ls: seq<Label>, k: nat)
    requires k <= |ls| && Notes(ls[..k]).pending == []
    requires forall i :: k <= i < |ls| ==> RecoveryLabel(ls[i])
    ensures Notes(ls).pending == [] && ApplyBatches(h, Notes(ls).batches) == ApplyBatches(h, Notes(ls[..k]).batches)
    decreases |ls|
  {
    if k == |ls| {
      assert ls[..k] == ls;
    } else {
      var init := ls[..|ls|-1];
      assert init[..k] == ls[..k];
      RecoveryNotes(h, init, k);
      var n := Notes(ls);
      if ls[|ls|-1].Crash? {
        assert n.batches[..|n.batches|-1] == Notes(init).batches;
      }
    }
  }

  lemma CrashedNotes(h: Home, ls: seq<Label>, k: nat)
    requires k < |ls| && ls[k].Crash? && forall i :: k < i < |ls| ==> RecoveryLabel(ls[i])
    ensures Notes(ls).pending == [] && ApplyBatches(h, Notes(ls).batches) == ApplyBatches(h, Notes(ls[..k]).batches)
  {
    var cut := ls[..k+1];
    assert cut[..|cut|-1] == ls[..k];
    var n := Notes(cut);
    assert n.batches[..|n.batches|-1] == Notes(ls[..k]).batches;
    RecoveryNotes(h, ls, k + 1);
  }

  /** After a crash at any point k of any run, and a recovery that is itself interrupted at
      will, the file system that comes up shows exactly the batches committed before k. */
  lemma RecoveryExact(p: Layout, s0: State, ls: seq<Label>, k: nat)
    requires Initial(p, s0) && Valid(p, s0, ls) && Exec(p, s0, ls).m.phase.Idle?
    requires k < |ls| && ls[k].Crash? && forall i :: k < i < |ls| ==> RecoveryLabel(ls[i])
    ensures View(p, Exec(p, s0, ls).m) == ApplyBatches(Durable(p, s0.m.disk), Notes(ls[..k]).batches)
  {
    CrashAtomicity(p, s0, ls);
    CrashedNotes(Durable(p, s0.m.disk), ls, k);
  }

  lemma Extend(p: Layout, s: State, ls: seq<Label>, l: Label)
    requires Valid(p, s, ls) && Enabled(p, Exec(p, s, ls), l)
    ensures Valid(p, s, ls + [l]) && Exec(p, s, ls + [l]) == Apply(p, Exec(p, s, ls), l)
  {
    assert (ls + [l])[..|ls|] == ls;
  }

  /** The first n blocks are back home. */
  ghost predicate InstallsTo(p: Layout, s: State, ls: seq<Label>, n: nat) {
    && Valid(p, s, ls) && Inv(p, Exec(p, s, ls))
    && Exec(p, s, ls).m.lh == Hdr(p, s.m)
    && Exec(p, s, ls).m.phase == AfterInstall(n, |Hdr(p, s.m)|, true)
  }

  lemma InstallAdvances(p: Layout, s: State, n: nat)
    requires Inv(p, s) && s.m.phase == Installing(n, true)
    ensures Enabled(p, s, InstallOne) && Inv(p, Apply(p, s, InstallOne))
    ensures Apply(p, s, InstallOne).m.lh == s.m.lh
    ensures Apply(p, s, InstallOne).m.phase == AfterInstall(n + 1, |s.m.lh|, true)
  {
    StepRefines(p, s, InstallOne);
  }

  lemma InstallsNext(p: Layout, s: State, ls: seq<Label>, n: nat)
    requires InstallsTo(p, s, ls, n) && n < |Hdr(p, s.m)|
    ensures InstallsTo(p, s, ls + [InstallOne], n + 1)
  {
    hide Apply, Move, StoreInv, OpInv;
    InstallAdvances(p, Exec(p, s, ls), n);
    Extend(p, s, ls, InstallOne);
  }

  /** The labels of an uninterrupted recovery of n logged blocks, before the header is cleared. */
  function Installs(n: nat): seq<Label> {
    if n == 0 then [ReadHead] else Installs(n - 1) + [InstallOne]
  }

  lemma ReadAdvances(p: Layout, s: State)
    requires Inv(p, s) && s.m.phase.Booting?
    ensures Enabled(p, s, ReadHead) && Inv(p, Apply(p, s, ReadHead))
    ensures Apply(p, s, ReadHead).m.lh == Hdr(p, s.m)
    ensures Apply(p, s, ReadHead).m.phase == AfterInstall(0, |Hdr(p, s.m)|, true)
  {
    assert !Dirty(s.m, p.start);
    StepRefines(p, s, ReadHead);
  }

  lemma {:induction false} InstallRuns(p: Layout, s: State, n: nat)
    requires Inv(p, s) && s.m.phase.Booting? && n <= |Hdr(p, s.m)|
    ensures InstallsTo(p, s, Installs(n), n)
    decreases n
  {
    hide Apply, Move, StoreInv, OpInv, HeaderList, HeaderFits;
    if n == 0 {
      ReadAdvances(p, s);
      Extend(p, s, [], ReadHead);
    } else {
      InstallRuns(p, s, n - 1);
      InstallsNext(p, s, Installs(n - 1), n - 1);
    }
  }

  /** Recovery can always run to its end, with no step stuck and no header read out of range. */
  lemma RecoveryCompletes(p: Layout, s: State)
    requires Inv(p, s) && s.m.phase.Booting?
    ensures var ls := Installs(|Hdr(p, s.m)|) + [ClearHead];
      Valid(p, s, ls) && Inv(p, Exec(p, s, ls)) && Exec(p, s, ls).m.phase.Idle? && Exec(p, s, ls).m.lh == []
  {
    var ls := Installs(|Hdr(p, s.m)|);
    InstallRuns(p, s, |Hdr(p, s.m)|);
    Extend(p, s, ls, ClearHead);
    StepRefines(p, Exec(p, s, ls), ClearHead);
  }

  // ---- operations that wait ----

  /** Whoever sleeps in begin_op sleeps with cause: its test fails now, and a commit or a running
      operation, each of which will call wakeup, is there. */
  lemma SleepersWaitForSomeone(p: Layout, s0: State, ls: seq<Label>)
    requires Initial(p, s0) && Valid(p, s0, ls)
    ensures var s := Exec(p, s0, ls);
      && (s.waiting != {} ==> !Admits(s) && (s.committing || s.outstanding > 0))
      && (s.committing ==> s.outstanding == 0)
      && (s.active != map[] ==> !s.committing && s.outstanding > 0)
  {
    CrashAtomicity(p, s0, ls);
    var s := Exec(p, s0, ls);
    if s.active != map[] {
      var op :| op in s.active;
      assert op in s.active.Keys;
    }
  }

  lemma {:induction false} Prepend(p: Layout, s: State, l: Label, ls: seq<Label>)
    requires Enabled(p, s, l) && Valid(p, Apply(p, s, l), ls)
    ensures Valid(p, s, [l] + ls) && Exec(p, s, [l] + ls) == Exec(p, Apply(p, s, l), ls)
    decreases |ls|
  {
    hide Enabled, Apply;
    if ls == [] {
      assert [l] + ls == [l] && [l][..0] == [];
    } else {
      Prepend(p, s, l, ls[..|ls|-1]);
      assert ([l] + ls)[..|ls|] == [l] + ls[..|ls|-1];
    }
  }

  lemma Single(p: Layout, s: State, l: Label)
    requires Enabled(p, s, l)
    ensures Valid(p, s, [l]) && Exec(p, s, [l]) == Apply(p, s, l)
  {
    hide Enabled, Apply;
    assert [l][..0] == [];
  }

  /** The committer's next step, and how many it has left. */
  function NextOfCommit(ph: Phase): Label {
    if ph.Logging? then CopyToLog else if ph.Committing? then CommitHead
    else if ph.Installing? then InstallOne else if ph.Clearing? then ClearHead else FinishCommit
  }

  function StepsLeft(ph: Phase, n: nat): int {
    if ph.Logging? then 2 * n + 4 - ph.tail else if ph.Committing? then n + 4
    else if ph.Installing? then n + 3 - ph.tail else if ph.Clearing? then 2 else 1
  }

  lemma CommitEnabled(p: Layout, s: State)
    requires Inv(p, s) && s.committing
    ensures Enabled(p, s, NextOfCommit(s.m.phase)) && 1 <= StepsLeft(s.m.phase, |s.m.lh|)
    ensures !s.m.phase.Idle? && !Recovering(s.m.phase)
  {
    hide View, Durable, Data, HeaderList, HeaderFits, Pinned, Copied, Installed, Dirty, CacheInv, Hdr, Distinct;
  }

  lemma CommitAdvances(p: Layout, s: State)
    requires s.committing && !s.m.phase.Idle? && !Recovering(s.m.phase) && Enabled(p, s, NextOfCommit(s.m.phase))
    ensures var t := Apply(p, s, NextOfCommit(s.m.phase));
      if s.m.phase.Finishing? then t.waiting == {} && !t.committing
      else t.committing && StepsLeft(t.m.phase, |t.m.lh|) < StepsLeft(s.m.phase, |s.m.lh|)
  {
    hide Data, SetHeader, Listable;
  }

  predicate CommitLabel(l: Label) {
    l.CopyToLog? || l.CommitHead? || l.InstallOne? || l.ClearHead? || l.FinishCommit?
  }

  /** A commit under way runs to its end by itself, and its end wakes everybody. */
  lemma {:induction false} CommitWakes(p: Layout, s: State) returns (ls: seq<Label>)
    requires Inv(p, s) && s.committing
    ensures Valid(p, s, ls) && Exec(p, s, ls).waiting == {} && forall i :: 0 <= i < |ls| ==> CommitLabel(ls[i])
    decreases StepsLeft(s.m.phase, |s.m.lh|)
  {
    var l := NextOfCommit(s.m.phase);
    CommitEnabled(p, s);
    CommitAdvances(p, s);
    StepRefines(p, s, l);
    CommitNext(s.m.phase);
    hide Inv, Enabled, Apply, NextOfCommit, StepsLeft, Valid, Exec;
    var t := Apply(p, s, l);
    if s.m.phase.Finishing? {
      ls := [l];
      Single(p, s, l);
    } else {
      var rest := CommitWakes(p, t);
      Prepend(p, s, l, rest);
      ls := [l] + rest;
    }
  }

  lemma CommitNext(ph: Phase)
    ensures CommitLabel(NextOfCommit(ph))
  {
  }

  /** No sleeper in begin_op is forgotten: from every reachable state one end_op, and the commit
      it may start, reach the wakeup, with no new operation and no crash. */
  lemma SleepersWake(p: Layout, s0: State, ls: seq<Label>) returns (us: seq<Label>)
    requires Initial(p, s0) && Valid(p, s0, ls)
    ensures Valid(p, Exec(p, s0, ls), us) && Exec(p, Exec(p, s0, ls), us).waiting == {}
    ensures forall i :: 0 <= i < |us| ==> CommitLabel(us[i]) || (i == 0 && us[i].EndOp?)
  {
    Reachable(p, s0, ls);
    SleepersWaitForSomeone(p, s0, ls);
    var s := Exec(p, s0, ls);
    if s.waiting == {} {
      us := [];
    } else if s.committing {
      us := CommitWakes(p, s);
    } else {
      us := EndWakes(p, s);
    }
  }

  lemma EndWakes(p: Layout, s: State) returns (us: seq<Label>)
    requires Inv(p, s) && !s.committing && s.outstanding > 0
    ensures Valid(p, s, us) && Exec(p, s, us).waiting == {}
    ensures forall i :: 0 <= i < |us| ==> CommitLabel(us[i]) || (i == 0 && us[i].EndOp?)
  {
    assert s.active != map[];
    var op :| op in s.active;
    var l := EndOp(op);
    StepRefines(p, s, l);
    var t := Apply(p, s, l);
    var rest := [];
    if t.waiting != {} {
      rest := CommitWakes(p, t);
    }
    Prepend(p, s, l, rest);
    us := [l] + rest;
  }
}
