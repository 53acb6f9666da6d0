/** Sleep locks (sleeplock.c) over sleep, wakeup, kill and the scheduler (proc.c), as
    interleaved steps of any number of processes.

    A step is one shared-memory action between lock operations.  A process that called
    sched() holds no lock: the scheduler frees ptable.lock, and takes it again for the
    process when it is next run.  Processes may also sleep on any other channel, while they
    have nothing to do with the lock or while they hold it. */
module SleepLock {

  type Pid = nat
  type Chan = nat

  /** The channel of this lock; 0 is no channel. */
  const LK: Chan := 1

  /** Where a process stands. */
  datatype Pc =
    | Out            // not using the lock
    // acquiresleep
    | WantInner      // acquire(&lk->lk)
    | Test           // holds lk->lk, at while (lk->locked)
    | WantTable      // in sleep, holds lk->lk, acquire(&ptable.lock)
    | DropInner      // holds both, release(lk)
    | Committed      // holds ptable.lock, before p->state = SLEEPING
    | Asleep         // inside sched
    | Woken          // back from sched with ptable.lock held
    | Take           // holds lk->lk, about to set locked
    | Leave          // has set locked, release(&lk->lk)
    | Holding        // acquiresleep returned
    // releasesleep
    | WantInnerR     // acquire(&lk->lk)
    | Clear          // holds lk->lk, about to clear locked
    | WantTableR     // in wakeup, holds lk->lk, acquire(&ptable.lock)
    | WakeAll        // holds both, wakeup1
    | DropTable      // holds both, release(&ptable.lock)
    | DropInnerR     // holds lk->lk, release(&lk->lk)

  datatype RunState = Running | Runnable | Sleeping

  datatype Proc = Proc(pc: Pc, run: RunState, chan: Chan)

  datatype Lock = Free | Held(pid: Pid)

  /** lk->locked with lk->pid, lk->lk, ptable.lock, and the processes. */
  datatype State = State(locked: bool, owner: Pid, inner: Lock, table: Lock, procs: map<Pid, Proc>)

  datatype Action =
    | Acquire | TakeInner | SeeLocked | SeeFree | TakeTable | ReleaseInner | Doze | Tidy | SetLocked | Finish
    | Release | ClearLocked | Wakeup | ReleaseTable
    | Yield | Dispatch | Kill(target: Pid)
    | DozeOn(chan: Chan) | WakeOn(chan: Chan)   // sleep and wakeup on another channel

  datatype Step = Step(p: Pid, a: Action)

  predicate At(s: State, p: Pid, pc: Pc) {
    p in s.procs && s.procs[p].pc == pc && s.procs[p].run == Running
  }

  /** Spinlocks disable interrupts, so only a process without one can be preempted. */
  predicate NoSpin(pc: Pc) {
    pc.Out? || pc.WantInner? || pc.Holding? || pc.WantInnerR?
  }

  predicate Enabled(s: State, t: Step) {
    var p := t.p;
    match t.a
    case Acquire => At(s, p, Out)
    case TakeInner => (At(s, p, WantInner) || At(s, p, WantInnerR)) && s.inner.Free?
    case SeeLocked => At(s, p, Test) && s.locked
    case SeeFree => At(s, p, Test) && !s.locked
    case TakeTable => (At(s, p, WantTable) || At(s, p, WantTableR)) && s.table.Free?
    case ReleaseInner => At(s, p, DropInner) || At(s, p, DropInnerR)
    case Doze => At(s, p, Committed)
    case Tidy => At(s, p, Woken)
    case SetLocked => At(s, p, Take)
    case Finish => At(s, p, Leave)
    case Release => At(s, p, Holding)
    case ClearLocked => At(s, p, Clear)
    case Wakeup => At(s, p, WakeAll)
    case ReleaseTable => At(s, p, DropTable)
    case Yield => p in s.procs && s.procs[p].run == Running && NoSpin(s.procs[p].pc) && s.table.Free?
    case Dispatch => p in s.procs && s.procs[p].run == Runnable && s.table.Free?
    case Kill(q) => p in s.procs && s.procs[p].run == Running && NoSpin(s.procs[p].pc) && s.table.Free? && q in s.procs
    case DozeOn(c) => (At(s, p, Out) || At(s, p, Holding)) && s.table.Free? && c != 0 && c != LK
    case WakeOn(c) =>
      p in s.procs && s.procs[p].run == Running && NoSpin(s.procs[p].pc) && s.table.Free? && c != 0 && c != LK
  }

  function Go(s: State, p: Pid, pc: Pc): State
    requires p in s.procs
  {
    s.(procs := s.procs[p := s.procs[p].(pc := pc)])
  }

  function Run(s: State, p: Pid, r: RunState): State
    requires p in s.procs
  {
    s.(procs := s.procs[p := s.procs[p].(run := r)])
  }

  /** wakeup1(chan): every process sleeping on the channel becomes runnable. */
  function WakeUp(procs: map<Pid, Proc>, chan: Chan): map<Pid, Proc> {
    map q | q in procs :: if procs[q].run == Sleeping && procs[q].chan == chan then procs[q].(run := Runnable) else procs[q]
  }

  /** p->chan = chan */
  function On(s: State, p: Pid, chan: Chan): State
    requires p in s.procs
  {
    s.(procs := s.procs[p := s.procs[p].(chan := chan)])
  }

  function Apply(s: State, t: Step): State
    requires Enabled(s, t)
  {
    var p := t.p;
    var pc := s.procs[p].pc;
    match t.a
    case Acquire => Go(s, p, WantInner)
    case TakeInner => Go(s, p, if pc.WantInner? then Test else Clear).(inner := Held(p))
    case SeeLocked => Go(s, p, WantTable)
    case SeeFree => Go(s, p, Take)
    case TakeTable => Go(s, p, if pc.WantTable? then DropInner else WakeAll).(table := Held(p))
    case ReleaseInner => Go(s, p, if pc.DropInner? then Committed else Out).(inner := Free)
    case Doze => On(Run(Go(s, p, Asleep), p, Sleeping), p, LK).(table := Free)
    case Tidy => On(Go(s, p, WantInner), p, 0).(table := Free)
    case SetLocked => Go(s, p, Leave).(locked := true, owner := p)
    case Finish => Go(s, p, Holding).(inner := Free)
    case Release => Go(s, p, WantInnerR)
    case ClearLocked => Go(s, p, WantTableR).(locked := false, owner := 0)
    case Wakeup => Go(s.(procs := WakeUp(s.procs, LK)), p, DropTable)
    case ReleaseTable => Go(s, p, DropInnerR).(table := Free)
    case Yield => Run(s, p, Runnable)
    case Dispatch =>
      if pc.Asleep? then Run(Go(s, p, Woken), p, Running).(table := Held(p)) else On(Run(s, p, Running), p, 0)
    case Kill(q) => if s.procs[q].run == Sleeping then Run(s, q, Runnable) else s
    case DozeOn(c) => On(Run(s, p, Sleeping), p, c)
    case WakeOn(c) => s.(procs := WakeUp(s.procs, c))
  }

  // ---- invariant ----

  predicate HasInner(pc: Pc) {
    pc.Test? || pc.WantTable? || pc.DropInner? || pc.Take? || pc.Leave?
    || pc.Clear? || pc.WantTableR? || pc.WakeAll? || pc.DropTable? || pc.DropInnerR?
  }

  predicate HasTable(pc: Pc) {
    pc.DropInner? || pc.Committed? || pc.Woken? || pc.WakeAll? || pc.DropTable?
  }

  predicate Owns(pc: Pc) {
    pc.Leave? || pc.Holding? || pc.WantInnerR? || pc.Clear?
  }

  /** Has seen locked set and is on the way to sleep. */
  predicate SawLocked(pc: Pc) { pc.WantTable? || pc.DropInner? }

  /** Asleep on the lock, or past the point of no return. */
  predicate Waiting(q: Proc) {
    q.pc.Committed? || OnLock(q)
  }

  predicate OnLock(q: Proc) { q.run == Sleeping && q.chan == LK }

  /** Asleep on some other channel. */
  predicate Away(q: Proc) { q.run == Sleeping && q.chan != LK }

  predicate AboutToWake(pc: Pc) { pc.WantTableR? || pc.WakeAll? }

  ghost predicate ProcInv(s: State, p: Pid)
    requires p in s.procs
  {
    var q := s.procs[p];
    && (HasInner(q.pc) <==> s.inner == Held(p))
    && (HasTable(q.pc) <==> s.table == Held(p))
    && (Owns(q.pc) <==> s.locked && s.owner == p)
    && (SawLocked(q.pc) ==> s.locked) && (q.pc.Take? ==> !s.locked)
    && (OnLock(q) ==> q.pc.Asleep?) && (Away(q) ==> q.pc.Out? || q.pc.Holding?)
    && (q.pc.Asleep? ==> q.run != Running)
    && (q.run == Runnable ==> q.pc.Asleep? || NoSpin(q.pc))
    && (Waiting(q) && !s.locked ==>
          s.inner.Held? && s.inner.pid in s.procs && AboutToWake(s.procs[s.inner.pid].pc))
  }

  ghost predicate Inv(s: State) {
    && (forall p :: p in s.procs ==> ProcInv(s, p))
    && (s.inner.Held? ==> s.inner.pid in s.procs)
    && (s.table.Held? ==> s.table.pid in s.procs)
    && (s.locked ==> s.owner in s.procs)
  }

  /** The processes a step can depend on. */
  lemma Instances(s: State, t: Step, p: Pid)
    requires Inv(s) && t.p in s.procs
    ensures ProcInv(s, t.p) && (p in s.procs ==> ProcInv(s, p))
    ensures s.inner.Held? ==> s.inner.pid in s.procs && ProcInv(s, s.inner.pid)
    ensures s.table.Held? ==> s.table.pid in s.procs && ProcInv(s, s.table.pid)
  {
  }

  lemma QuietStep(s: State, t: Step, p: Pid)
    requires Inv(s) && Enabled(s, t) && (t.a.Acquire? || t.a.Release? || t.a.SeeLocked? || t.a.SeeFree? || t.a.Yield?)
    requires p in Apply(s, t).procs
    ensures ProcInv(Apply(s, t), p)
  {
    Instances(s, t, p);
  }

  lemma InnerStep(s: State, t: Step, p: Pid)
    requires Inv(s) && Enabled(s, t) && (t.a.TakeInner? || t.a.Finish?)
    requires p in Apply(s, t).procs
    ensures ProcInv(Apply(s, t), p)
  {
    Instances(s, t, p);
  }

  lemma DropInnerStep(s: State, t: Step, p: Pid)
    requires Inv(s) && Enabled(s, t) && (t.a.ReleaseInner?)
    requires p in Apply(s, t).procs
    ensures ProcInv(Apply(s, t), p)
  {
    Instances(s, t, p);
  }

  lemma TableStep(s: State, t: Step, p: Pid)
    requires Inv(s) && Enabled(s, t) && (t.a.TakeTable? || t.a.ReleaseTable?)
    requires p in Apply(s, t).procs
    ensures ProcInv(Apply(s, t), p)
  {
    Instances(s, t, p);
  }

  lemma SleepStep(s: State, t: Step, p: Pid)
    requires Inv(s) && Enabled(s, t) && (t.a.Doze? || t.a.Tidy?)
    requires p in Apply(s, t).procs
    ensures ProcInv(Apply(s, t), p)
  {
    Instances(s, t, p);
  }

  lemma FlagStep(s: State, t: Step, p: Pid)
    requires Inv(s) && Enabled(s, t) && (t.a.SetLocked?)
    requires p in Apply(s, t).procs
    ensures ProcInv(Apply(s, t), p)
  {
    Instances(s, t, p);
  }

  lemma UnflagStep(s: State, t: Step, p: Pid)
    requires Inv(s) && Enabled(s, t) && (t.a.ClearLocked?)
    requires p in Apply(s, t).procs
    ensures ProcInv(Apply(s, t), p)
  {
    Instances(s, t, p);
  }

  lemma WakeStep(s: State, t: Step, p: Pid)
    requires Inv(s) && Enabled(s, t) && (t.a.Wakeup?)
    requires p in Apply(s, t).procs
    ensures ProcInv(Apply(s, t), p)
  {
    Instances(s, t, p);
  }

  lemma KillStep(s: State, t: Step, p: Pid)
    requires Inv(s) && Enabled(s, t) && t.a.Kill?
    requires p in Apply(s, t).procs
    ensures ProcInv(Apply(s, t), p)
  {
    Instances(s, t, p);
  }

  lemma SchedStep(s: State, t: Step, p: Pid)
    requires Inv(s) && Enabled(s, t) && t.a.Dispatch?
    requires p in Apply(s, t).procs
    ensures ProcInv(Apply(s, t), p)
  {
    Instances(s, t, p);
  }

  lemma AwayStep(s: State, t: Step, p: Pid)
    requires Inv(s) && Enabled(s, t) && (t.a.DozeOn? || t.a.WakeOn?)
    requires p in Apply(s, t).procs
    ensures ProcInv(Apply(s, t), p)
  {
    Instances(s, t, p);
  }

  lemma StepKeeps(s: State, t: Step)
    requires Inv(s) && Enabled(s, t)
    ensures Inv(Apply(s, t))
  {
    hide ProcInv;
    var s' := Apply(s, t);
    forall p | p in s'.procs ensures ProcInv(s', p) {
      match t.a
      case Acquire => QuietStep(s, t, p);
      case Release => QuietStep(s, t, p);
      case SeeLocked => QuietStep(s, t, p);
      case SeeFree => QuietStep(s, t, p);
      case Yield => QuietStep(s, t, p);
      case TakeInner => InnerStep(s, t, p);
      case Finish => InnerStep(s, t, p);
      case ReleaseInner => DropInnerStep(s, t, p);
      case TakeTable => TableStep(s, t, p);
      case ReleaseTable => TableStep(s, t, p);
      case Doze => SleepStep(s, t, p);
      case Tidy => SleepStep(s, t, p);
      case SetLocked => FlagStep(s, t, p);
      case ClearLocked => UnflagStep(s, t, p);
      case Wakeup => WakeStep(s, t, p);
      case Dispatch => SchedStep(s, t, p);
      case Kill(q) => KillStep(s, t, p);
      case DozeOn(c) => AwayStep(s, t, p);
      case WakeOn(c) => AwayStep(s, t, p);
    }
  }

  // ---- runs ----

  ghost predicate Init(s: State) {
    && !s.locked && s.inner.Free? && s.table.Free?
    && forall p :: p in s.procs ==> s.procs[p].pc.Out? && !OnLock(s.procs[p])
  }

  ghost predicate Valid(s: State, ts: seq<Step>)
    decreases |ts|, 0
  {
    ts == [] || (Valid(s, ts[..|ts|-1]) && Enabled(Exec(s, ts[..|ts|-1]), ts[|ts|-1]))
  }

  ghost function Exec(s: State, ts: seq<Step>): State
    requires Valid(s, ts)
    decreases |ts|, 1
  {
    if ts == [] then s else Apply(Exec(s, ts[..|ts|-1]), ts[|ts|-1])
  }

  lemma {:induction false} RunKeeps(s: State, ts: seq<Step>)
    requires Init(s) && Valid(s, ts)
    ensures Inv(Exec(s, ts))
    decreases |ts|
  {
    if ts != [] {
      RunKeeps(s, ts[..|ts|-1]);
      StepKeeps(Exec(s, ts[..|ts|-1]), ts[|ts|-1]);
    }
  }

  /** Only a process that sleeps, that has been woken and not yet run, or that is about to tidy up has
      a channel. */
  ghost predicate Tidied(s: State) {
    forall p :: p in s.procs ==> Tidy1(s.procs[p])
  }

  predicate Tidy1(q: Proc) { q.run == Running && !q.pc.Woken? ==> q.chan == 0 }

  lemma TidyStep(s: State, t: Step)
    requires Tidied(s) && Enabled(s, t)
    ensures Tidied(Apply(s, t))
  {
    var z := Apply(s, t);
    assert t.p in s.procs && Tidy1(s.procs[t.p]);
    forall q | q in z.procs ensures Tidy1(z.procs[q]) {
      assert Tidy1(s.procs[q]);
    }
  }

  /** sleep leaves no channel behind. */
  lemma {:induction false} StaysTidy(s: State, ts: seq<Step>)
    requires Tidied(s) && Valid(s, ts)
    ensures Tidied(Exec(s, ts))
    decreases |ts|
  {
    if ts != [] {
      StaysTidy(s, ts[..|ts|-1]);
      TidyStep(Exec(s, ts[..|ts|-1]), ts[|ts|-1]);
      hide Tidied, Apply, Enabled;
    }
  }

  /** In every run of any number of processes, with kills, preemption and sleeping elsewhere at
      any point: at most one process holds the lock, and whenever the inner spinlock is free, a
      process asleep on the lock, or committed to sleeping on it, finds it locked, by a process
      that is not itself waiting for it. */
  lemma NoLostWakeup(s0: State, ts: seq<Step>)
    requires Init(s0) && Valid(s0, ts)
    ensures var s := Exec(s0, ts);
      && (forall p, q :: p in s.procs && q in s.procs && Owns(s.procs[p].pc) && Owns(s.procs[q].pc) ==> p == q)
      && (s.inner.Free? ==> forall p :: p in s.procs && Waiting(s.procs[p]) ==>
            s.locked && s.owner in s.procs && Owns(s.procs[s.owner].pc) && !Waiting(s.procs[s.owner]))
  {
    RunKeeps(s0, ts);
    var s := Exec(s0, ts);
    forall p | p in s.procs ensures ProcInv(s, p) {}
  }

  // ---- progress ----

  predicate Inside(s: State, p: Pid) { p in s.procs && !s.procs[p].pc.Out? }

  /** A step of a process inside the protocol towards leaving it. */
  predicate Moves(s: State, t: Step) {
    Inside(s, t.p) && Enabled(s, t) && !t.a.Kill? && !t.a.Yield? && !t.a.DozeOn? && !t.a.WakeOn?
  }

  /** The holder of the lock sleeps on another channel. */
  predicate OwnerAway(s: State) { s.locked && s.owner in s.procs && Away(s.procs[s.owner]) }

  /** Both spinlocks are free and everybody inside sleeps. */
  ghost predicate Stuck(s: State) {
    s.inner.Free? && s.table.Free? && forall p :: Inside(s, p) ==> s.procs[p].run == Sleeping
  }

  /** Whoever has a spinlock can move, or waits for ptable.lock whose holder can. */
  lemma SpinnerMoves(s: State, p: Pid) returns (t: Step)
    requires Inv(s) && p in s.procs && (HasInner(s.procs[p].pc) || HasTable(s.procs[p].pc))
    ensures Moves(s, t)
  {
    assert ProcInv(s, p);
    var pc := s.procs[p].pc;
    if pc.WantTable? || pc.WantTableR? {
      if s.table.Free? { return Step(p, TakeTable); }
      t := TableHolderMoves(s);
    } else {
      t := Step(p,
        if pc.Test? then (if s.locked then SeeLocked else SeeFree)
        else if pc.DropInner? || pc.DropInnerR? then ReleaseInner
        else if pc.Committed? then Doze
        else if pc.Woken? then Tidy
        else if pc.Take? then SetLocked
        else if pc.Leave? then Finish
        else if pc.Clear? then ClearLocked
        else if pc.WakeAll? then Wakeup
        else ReleaseTable);
    }
  }

  lemma TableHolderMoves(s: State) returns (t: Step)
    requires Inv(s) && s.table.Held?
    ensures Moves(s, t)
  {
    var p := s.table.pid;
    assert ProcInv(s, p);
    var pc := s.procs[p].pc;
    t := Step(p,
      if pc.DropInner? then ReleaseInner
      else if pc.Committed? then Doze
      else if pc.Woken? then Tidy
      else if pc.WakeAll? then Wakeup
      else ReleaseTable);
  }

  /** With both spinlocks free, a process inside that is not asleep can run or be run. */
  lemma IdleMoves(s: State, p: Pid) returns (t: Step)
    requires Inv(s) && s.table.Free? && s.inner.Free? && Inside(s, p) && s.procs[p].run != Sleeping
    ensures Moves(s, t)
  {
    assert ProcInv(s, p);
    var q := s.procs[p];
    t := Step(p, if q.run == Runnable then Dispatch else if q.pc.Holding? then Release else TakeInner);
  }

  lemma Unstuck(s: State) returns (t: Step)
    requires Inv(s) && !Stuck(s)
    ensures Moves(s, t)
  {
    if s.table.Held? {
      t := TableHolderMoves(s);
    } else if s.inner.Held? {
      assert ProcInv(s, s.inner.pid);
      t := SpinnerMoves(s, s.inner.pid);
    } else {
      var p :| Inside(s, p) && s.procs[p].run != Sleeping;
      t := IdleMoves(s, p);
    }
  }

  lemma StuckStays(s: State, t: Step)
    requires Inv(s) && Stuck(s)
    ensures !Moves(s, t)
  {
    if Inside(s, t.p) {
      assert ProcInv(s, t.p);
    }
  }

  /** Somebody inside can move exactly when not everybody inside is asleep with the spinlocks
      free; and they are all asleep only when the holder of the lock sleeps on another channel. */
  lemma NoDeadlock(s: State, p: Pid)
    requires Inv(s) && Inside(s, p)
    ensures (exists t :: Moves(s, t)) <==> !Stuck(s)
    ensures Stuck(s) ==> OwnerAway(s)
  {
    if Stuck(s) {
      forall t ensures !Moves(s, t) {
        StuckStays(s, t);
      }
      assert ProcInv(s, p);
      if s.locked {
        assert ProcInv(s, s.owner);
      }
    } else {
      var t := Unstuck(s);
    }
  }

  /** One process, number 0, takes the lock and sleeps on channel 2. */
  function SoloStep(i: nat): Step {
    Step(0, if i == 0 then Acquire else if i == 1 then TakeInner else if i == 2 then SeeFree
            else if i == 3 then SetLocked else if i == 4 then Finish else DozeOn(2))
  }

  function SoloAt(i: nat): State {
    var pc := if i == 0 then Out else if i == 1 then WantInner else if i == 2 then Test
              else if i == 3 then Take else if i == 4 then Leave else Holding;
    var away := i >= 6;
    State(i >= 4, 0, if 2 <= i <= 4 then Held(0) else Free, Free,
          map[0 := Proc(pc, if away then Sleeping else Running, if away then 2 else 0)])
  }

  lemma SoloMoves(i: nat)
    requires i < 6
    ensures Enabled(SoloAt(i), SoloStep(i)) && Apply(SoloAt(i), SoloStep(i)) == SoloAt(i + 1)
  {
  }

  lemma {:induction false} SoloRun(i: nat) returns (ts: seq<Step>)
    requires i <= 6
    ensures Valid(SoloAt(0), ts) && Exec(SoloAt(0), ts) == SoloAt(i)
  {
    ts := [];
    if i > 0 {
      ts := SoloRun(i - 1);
      SoloMoves(i - 1);
      ts := Snoc(SoloAt(0), ts, SoloStep(i - 1));
    }
  }

  /** A holder asleep elsewhere does leave the others waiting: such a state can be reached. */
  lemma StuckRun() returns (s0: State, ts: seq<Step>)
    ensures Init(s0) && Valid(s0, ts) && Stuck(Exec(s0, ts)) && OwnerAway(Exec(s0, ts))
  {
    s0 := SoloAt(0);
    ts := SoloRun(6);
  }

  lemma Snoc(s: State, ts: seq<Step>, t: Step) returns (us: seq<Step>)
    requires Valid(s, ts) && Enabled(Exec(s, ts), t)
    ensures Valid(s, us) && Exec(s, us) == Apply(Exec(s, ts), t)
  {
    us := ts + [t];
    assert us[..|ts|] == ts;
  }
}
