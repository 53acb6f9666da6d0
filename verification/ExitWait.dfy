/** fork, exit, wait, kill and sleep/wakeup over the process table of proc.c.

    ptable.lock is held from acquire to the switch back to the scheduler, so a step is a
    whole critical section, or one of the writes fork makes without the lock.  A state
    between steps is one in which ptable.lock is free. */
module ExitWait {

  datatype PState = UNUSED | EMBRYO | SLEEPING | RUNNABLE | RUNNING | ZOMBIE

  /** A slot; a process pointer is its index, NONE is the null pointer.  `maker` is the process
      whose fork is filling an EMBRYO slot. */
  datatype Proc = Proc(state: PState, parent: int, pid: nat, chan: int, killed: bool, maker: int)

  const NONE: int := -1

  type Table = seq<Proc>

  datatype State = State(
    ps: Table,
    init: nat,
    nextpid: nat,
    forker: map<nat, nat>,       // from a pid to the pid of the process whose fork made it
    exited: set<nat>,            // pids that have called exit
    reaped: seq<(nat, nat)>)     // (pid, pid of the process whose wait returned it), in order

  // ---- what the critical sections do to the table ----

  predicate Child(ps: Table, q: nat, p: nat) {
    q < |ps| && ps[q].parent == p
  }

  predicate ZombieChild(ps: Table, q: nat, p: nat) {
    Child(ps, q, p) && ps[q].state == ZOMBIE
  }

  /** wakeup1 */
  function Wake(ps: Table, chan: int): (r: Table)
    ensures |r| == |ps|
    ensures forall i :: 0 <= i < |ps| ==>
      r[i] == if ps[i].state == SLEEPING && ps[i].chan == chan then ps[i].(state := RUNNABLE) else ps[i]
  {
    seq(|ps|, i requires 0 <= i < |ps| =>
      if ps[i].state == SLEEPING && ps[i].chan == chan then ps[i].(state := RUNNABLE) else ps[i])
  }

  /** exit's hand-over of children: they go to init, which is woken if one is a zombie. */
  ghost function Abandon(ps: Table, p: nat, init: nat): (r: Table)
    ensures |r| == |ps|
    ensures forall i :: 0 <= i < |ps| ==> r[i] == Given(ps, p, init, ps[i])
  {
    seq(|ps|, i requires 0 <= i < |ps| => Given(ps, p, init, ps[i]))
  }

  ghost function Given(ps: Table, p: nat, init: nat, q: Proc): Proc {
    var kept := if q.parent == p then q.(parent := init) else q;
    if q.state == SLEEPING && q.chan == init && (exists z: nat :: ZombieChild(ps, z, p)) then kept.(state := RUNNABLE) else kept
  }

  ghost function ExitTable(ps: Table, p: nat, init: nat): Table
    requires p < |ps|
  {
    var r := Abandon(Wake(ps, ps[p].parent), p, init);
    r[p := r[p].(state := ZOMBIE)]
  }

  function Reap(ps: Table, c: nat): Table
    requires c < |ps|
  {
    ps[c := ps[c].(pid := 0, parent := NONE, killed := false, state := UNUSED)]
  }

  // ---- steps ----

  datatype Step =
    | AllocProc(p: nat, i: nat)   // allocproc, under the lock
    | AllocFail(p: nat, i: nat)   // no kernel stack or no memory: np->state = UNUSED, no lock
    | SetParent(p: nat, i: nat)   // np->parent = curproc, no lock
    | Start(p: nat, i: nat)       // np->state = RUNNABLE, under the lock
    | Exit(p: nat)
    | WaitReap(p: nat, c: nat)    // wait finds a zombie child
    | WaitNone(p: nat)            // wait returns -1
    | WaitSleep(p: nat)           // wait sleeps on the process itself
    | Sleep(p: nat, chan: int)    // any other sleep
    | Wakeup(chan: int)
    | Kill(q: nat)
    | Yield(p: nat)
    | Dispatch(p: nat)

  predicate Runs(s: State, p: nat) {
    p < |s.ps| && s.ps[p].state == RUNNING
  }

  /** A process inside wait(): running it, or back from its sleep on itself. */
  predicate InWait(s: State, p: nat) {
    p < |s.ps| && (s.ps[p].state == RUNNING || (s.ps[p].state == RUNNABLE && s.ps[p].chan == p))
  }

  ghost predicate Idle(s: State, p: nat) {
    forall i :: 0 <= i < |s.ps| ==> !(s.ps[i].state == EMBRYO && s.ps[i].maker == p)
  }

  ghost predicate Enabled(s: State, t: Step) {
    match t
    case AllocProc(p, i) => Runs(s, p) && Idle(s, p) && i < |s.ps| && s.ps[i].state == UNUSED
    case AllocFail(p, i) => Runs(s, p) && i < |s.ps| && s.ps[i].state == EMBRYO && s.ps[i].maker == p && s.ps[i].parent == NONE
    case SetParent(p, i) => Runs(s, p) && i < |s.ps| && s.ps[i].state == EMBRYO && s.ps[i].maker == p && s.ps[i].parent == NONE
    case Start(p, i) => Runs(s, p) && i < |s.ps| && s.ps[i].state == EMBRYO && s.ps[i].maker == p && s.ps[i].parent == p
    case Exit(p) => Runs(s, p) && Idle(s, p) && p != s.init      // init exiting is a panic
    case WaitReap(p, c) => InWait(s, p) && Idle(s, p) && ZombieChild(s.ps, c, p) && c != p
    case WaitNone(p) => InWait(s, p) && Idle(s, p) && (forall c: nat :: !ZombieChild(s.ps, c, p))
                        && ((forall c: nat :: !Child(s.ps, c, p)) || s.ps[p].killed)
    case WaitSleep(p) => InWait(s, p) && Idle(s, p) && (forall c: nat :: !ZombieChild(s.ps, c, p))
                         && (exists c: nat :: Child(s.ps, c, p)) && !s.ps[p].killed
    case Sleep(p, chan) => Runs(s, p) && (chan >= |s.ps|)
    case Wakeup(chan) => chan >= |s.ps|
    case Kill(q) => q < |s.ps|
    case Yield(p) => Runs(s, p)
    case Dispatch(p) => p < |s.ps| && s.ps[p].state == RUNNABLE && s.ps[p].chan != p
  }

  function Set(s: State, i: nat, q: Proc): State
    requires i < |s.ps|
  {
    s.(ps := s.ps[i := q])
  }

  ghost function Apply(s: State, t: Step): State
    requires Enabled(s, t)
  {
    match t
    case AllocProc(p, i) => Set(s, i, s.ps[i].(state := EMBRYO, pid := s.nextpid, maker := p)).(nextpid := s.nextpid + 1, forker := s.forker[s.nextpid := s.ps[p].pid])
    case AllocFail(p, i) => Set(s, i, s.ps[i].(state := UNUSED))
    case SetParent(p, i) => Set(s, i, s.ps[i].(parent := p))
    case Start(p, i) => Set(s, i, s.ps[i].(state := RUNNABLE, chan := NONE))
    case Exit(p) => s.(ps := ExitTable(s.ps, p, s.init), exited := s.exited + {s.ps[p].pid})
    case WaitReap(p, c) =>
      Set(s.(ps := Reap(s.ps, c)), p, s.ps[p].(state := RUNNING, chan := NONE)).(reaped := s.reaped + [(s.ps[c].pid, s.ps[p].pid)])
    case WaitNone(p) => Set(s, p, s.ps[p].(state := RUNNING, chan := NONE))
    case WaitSleep(p) => Set(s, p, s.ps[p].(state := SLEEPING, chan := p))
    case Sleep(p, chan) => Set(s, p, s.ps[p].(state := SLEEPING, chan := chan))
    case Wakeup(chan) => s.(ps := Wake(s.ps, chan))
    case Kill(q) => Set(s, q, Killed(s.ps[q]))
    case Yield(p) => Set(s, p, s.ps[p].(state := RUNNABLE))
    case Dispatch(p) => Set(s, p, s.ps[p].(state := RUNNING, chan := NONE))
  }

  // ---- invariant ----

  predicate Alive(q: Proc) { q.state == SLEEPING || q.state == RUNNABLE || q.state == RUNNING }

  predicate Named(q: Proc) { q.state != UNUSED }

  /** p is a live process older than q. */
  predicate Elder(ps: Table, p: int, q: Proc) {
    0 <= p < |ps| && Alive(ps[p]) && ps[p].pid < q.pid
  }

  /** The family ties of one slot. */
  ghost predicate Ties(s: State, i: nat)
    requires i < |s.ps|
  {
    var q := s.ps[i];
    && (q.parent != NONE ==> Elder(s.ps, q.parent, q))
    && (q.state == UNUSED ==> q.parent == NONE)
    && (q.state == EMBRYO ==> Elder(s.ps, q.maker, q) && s.ps[q.maker].chan != q.maker && (q.parent == NONE || q.parent == q.maker))
    && ((Alive(q) || q.state == ZOMBIE) && i != s.init ==> q.parent != NONE)
  }

  /** The sleep state of one slot. */
  ghost predicate Rest(s: State, i: nat)
    requires i < |s.ps|
  {
    var q := s.ps[i];
    && (q.state == RUNNING ==> q.chan == NONE)
    && (q.state == SLEEPING ==> q.chan >= |s.ps| || q.chan == i)
    && (q.state == SLEEPING && q.chan == i ==>
          (forall c: nat :: !ZombieChild(s.ps, c, i)) && (exists c: nat :: Child(s.ps, c, i)))
  }

  ghost predicate Tree(s: State) {
    && s.init < |s.ps| && Alive(s.ps[s.init])
    && (forall i: nat :: i < |s.ps| ==> Ties(s, i))
    && (forall i: nat :: i < |s.ps| && i != s.init && Named(s.ps[i]) ==> s.ps[s.init].pid < s.ps[i].pid)
  }

  ghost predicate Rests(s: State) {
    forall i: nat :: i < |s.ps| ==> Rest(s, i)
  }

  ghost predicate Pids(s: State) {
    && (forall i: nat :: i < |s.ps| && Named(s.ps[i]) ==> s.ps[i].pid < s.nextpid)
    && (forall i: nat, j: nat :: i < |s.ps| && j < |s.ps| && i != j && Named(s.ps[i]) && Named(s.ps[j]) ==> s.ps[i].pid != s.ps[j].pid)
  }

  predicate IsReaped(s: State, pid: nat) { exists k :: 0 <= k < |s.reaped| && s.reaped[k].0 == pid }

  predicate IsZombie(s: State, pid: nat) { exists i :: 0 <= i < |s.ps| && s.ps[i].state == ZOMBIE && s.ps[i].pid == pid }

  /** Every process that has exited is a zombie or has been reaped, never both, and never reaped twice. */
  ghost predicate Accounts(s: State) {
    && (forall pid: nat :: pid in s.exited ==> pid < s.nextpid && (IsReaped(s, pid) <==> !IsZombie(s, pid)))
    && (forall k :: 0 <= k < |s.reaped| ==> s.reaped[k].0 in s.exited)
    && (forall j, k :: 0 <= j < k < |s.reaped| ==> s.reaped[j].0 != s.reaped[k].0)
    && (forall i: nat :: i < |s.ps| && Named(s.ps[i]) ==> (s.ps[i].pid in s.exited <==> s.ps[i].state == ZOMBIE))
  }

  /** Whoever may reap child: the process that forked it, or init if that process has exited. */
  predicate Heir(s: State, child: nat, reaper: nat) {
    && child in s.forker && s.init < |s.ps|
    && (reaper == s.forker[child] || (reaper == s.ps[s.init].pid && s.forker[child] in s.exited))
  }

  /** The parent of a started process is its heir; a process being forked belongs to its maker. */
  ghost predicate Kin(s: State, i: nat)
    requires i < |s.ps|
  {
    var q := s.ps[i];
    && (q.state == EMBRYO ==> 0 <= q.maker < |s.ps| && q.pid in s.forker && s.forker[q.pid] == s.ps[q.maker].pid)
    && ((Alive(q) || q.state == ZOMBIE) && i != s.init ==> 0 <= q.parent < |s.ps| && Heir(s, q.pid, s.ps[q.parent].pid))
  }

  ghost predicate Lineage(s: State) {
    && (forall i: nat :: i < |s.ps| ==> Kin(s, i))
    && forall k :: 0 <= k < |s.reaped| ==> Heir(s, s.reaped[k].0, s.reaped[k].1)
  }

  ghost predicate Inv(s: State) {
    Tree(s) && Rests(s) && Pids(s) && Accounts(s) && Lineage(s)
  }

  // ---- who reaps whom ----

  lemma ForkerKept(s: State, t: Step, pid: nat)
    requires Inv(s) && Enabled(s, t) && pid in s.forker && pid < s.nextpid
    ensures pid in Apply(s, t).forker && Apply(s, t).forker[pid] == s.forker[pid]
  {
    hide Tree, Rests, Pids, Accounts, Lineage, ExitTable, Wake;
  }

  /** Heirs stay heirs: init never changes, and exits are never undone. */
  lemma HeirKept(s: State, t: Step, child: nat, reaper: nat)
    requires Inv(s) && Enabled(s, t) && Heir(s, child, reaper) && child < s.nextpid
    ensures Heir(Apply(s, t), child, reaper)
  {
    ForkerKept(s, t, child);
    InitKept(s, t);
    hide Inv, ExitTable, Wake;
  }

  lemma InitKept(s: State, t: Step)
    requires Inv(s) && Enabled(s, t)
    ensures var s' := Apply(s, t);
      s'.init == s.init && |s'.ps| == |s.ps| && s.init < |s.ps| && s'.ps[s.init].pid == s.ps[s.init].pid && s.exited <= s'.exited
  {
    hide Rests, Pids, Accounts, Lineage, Ties;
  }

  lemma PidKept(s: State, t: Step, i: nat)
    requires Inv(s) && Enabled(s, t) && i < |s.ps| && Alive(s.ps[i])
    ensures i < |Apply(s, t).ps| && Apply(s, t).ps[i].pid == s.ps[i].pid
  {
    hide Inv;
  }

  predicate Started(q: Proc) { Alive(q) || q.state == ZOMBIE }

  /** A slot that goes on as it was keeps its kin. */
  lemma KinSame(s: State, t: Step, i: nat)
    requires Inv(s) && Enabled(s, t) && i < |s.ps|
    requires var q, r := s.ps[i], Apply(s, t).ps[i];
      && (r.state == EMBRYO ==> q.state == EMBRYO && r.pid == q.pid && r.maker == q.maker)
      && (Started(r) ==> Started(q) && r.pid == q.pid && r.parent == q.parent)
    ensures Kin(Apply(s, t), i)
  {
    InitKept(s, t);
    var q, r := s.ps[i], Apply(s, t).ps[i];
    assert Kin(s, i) && Ties(s, i);
    if r.state == EMBRYO {
      PidKept(s, t, q.maker);
      ForkerKept(s, t, q.pid);
    }
    if Started(r) && i != s.init {
      PidKept(s, t, q.parent);
      HeirKept(s, t, q.pid, s.ps[q.parent].pid);
    }
    hide Apply, Inv;
  }

  lemma ForkKin(s: State, t: Step, i: nat)
    requires Inv(s) && Enabled(s, t) && i < |s.ps| && Forks(t)
    ensures Kin(Apply(s, t), i)
  {
    if i != t.i || t.AllocFail? || t.SetParent? {
      KinSame(s, t, i);
    } else {
      assert Kin(s, i) && Ties(s, i);
      hide Rests, Pids, Accounts, Lineage, Tree;
    }
  }

  lemma ExitKin(s: State, p: nat, i: nat)
    requires Inv(s) && Enabled(s, Exit(p)) && i < |s.ps|
    ensures Kin(Apply(s, Exit(p)), i)
  {
    assert Tree(s) && Rests(s);
    ExitFacts(s, p);
    ExitLedger(s, p);
    ExitInit(s, p);
    if s.ps[i].parent != p || !Started(s.ps[i]) {
      ExitSame(s, p, i);
    } else {
      var f := s.ps[i].pid;
      assert Kin(s, i) && Ties(s, i) && f < s.nextpid;
      HeirKept(s, Exit(p), f, s.ps[p].pid);
      hide Inv, Apply;
    }
  }

  lemma ExitSame(s: State, p: nat, i: nat)
    requires Inv(s) && Enabled(s, Exit(p)) && i < |s.ps| && (s.ps[i].parent != p || !Started(s.ps[i]))
    ensures Kin(Apply(s, Exit(p)), i)
  {
    assert Tree(s) && Rests(s);
    ExitFacts(s, p);
    hide Apply;
    KinSame(s, Exit(p), i);
  }

  lemma ReapKin(s: State, p: nat, c: nat, i: nat)
    requires Inv(s) && Enabled(s, WaitReap(p, c)) && i < |s.ps|
    ensures Kin(Apply(s, WaitReap(p, c)), i)
  {
    hide Inv;
    if i != c { KinSame(s, WaitReap(p, c), i); }
  }

  lemma ReapHeir(s: State, p: nat, c: nat)
    requires Inv(s) && Enabled(s, WaitReap(p, c))
    ensures Heir(Apply(s, WaitReap(p, c)), s.ps[c].pid, s.ps[p].pid)
  {
    assert Kin(s, c) && Ties(s, c) && s.ps[c].pid < s.nextpid && c != s.init;
    HeirKept(s, WaitReap(p, c), s.ps[c].pid, s.ps[p].pid);
  }

  lemma LineageStep(s: State, t: Step)
    requires Inv(s) && Enabled(s, t)
    ensures Lineage(Apply(s, t))
  {
    var s' := Apply(s, t);
    InitKept(s, t);
    forall i: nat | i < |s'.ps| ensures Kin(s', i) {
      StepKin(s, t, i);
    }
    forall k | 0 <= k < |s'.reaped| ensures Heir(s', s'.reaped[k].0, s'.reaped[k].1) {
      StepHeir(s, t, k);
    }
    hide Inv, Apply;
  }

  lemma StepKin(s: State, t: Step, i: nat)
    requires Inv(s) && Enabled(s, t) && i < |s.ps|
    ensures Kin(Apply(s, t), i)
  {
    hide Inv, Kin;
    if Forks(t) {
      ForkKin(s, t, i);
    } else if t.Exit? {
      ExitKin(s, t.p, i);
    } else if t.WaitReap? {
      ReapKin(s, t.p, t.c, i);
    } else {
      KinSame(s, t, i);
    }
  }

  lemma StepHeir(s: State, t: Step, k: nat)
    requires Inv(s) && Enabled(s, t) && k < |Apply(s, t).reaped|
    ensures Heir(Apply(s, t), Apply(s, t).reaped[k].0, Apply(s, t).reaped[k].1)
  {
    if k == |s.reaped| {
      ReapHeir(s, t.p, t.c);
    } else {
      assert s.reaped[k].0 in s.exited;
      HeirKept(s, t, s.reaped[k].0, s.reaped[k].1);
    }
  }

  // ---- steps that only move processes between running, runnable and asleep ----

  /** Same families and pids; live processes stay alive, the others keep their state. */
  ghost predicate Shuffled(s: State, t: State) {
    && |t.ps| == |s.ps| && t == s.(ps := t.ps)
    && forall i :: 0 <= i < |s.ps| ==>
         && t.ps[i].parent == s.ps[i].parent && t.ps[i].pid == s.ps[i].pid && t.ps[i].maker == s.ps[i].maker
         && if Alive(s.ps[i]) then Alive(t.ps[i]) else t.ps[i].state == s.ps[i].state
  }

  lemma ShuffleTree(s: State, t: State)
    requires Tree(s) && Shuffled(s, t)
    requires forall i: nat, m: nat :: i < |s.ps| && m < |s.ps| && s.ps[i].state == EMBRYO && s.ps[i].maker == m ==>
               (t.ps[m].chan == m ==> s.ps[m].chan == m)
    ensures Tree(t)
  {
    forall i: nat | i < |t.ps| ensures Ties(t, i) { assert Ties(s, i); }
  }

  lemma ShufflePids(s: State, t: State)
    requires Pids(s) && Accounts(s) && Shuffled(s, t)
    ensures Pids(t) && Accounts(t)
  {
    forall pid: nat ensures IsZombie(t, pid) <==> IsZombie(s, pid) {
      if IsZombie(s, pid) {
        var i :| 0 <= i < |s.ps| && s.ps[i].state == ZOMBIE && s.ps[i].pid == pid;
        assert t.ps[i].state == ZOMBIE;
      }
      if IsZombie(t, pid) {
        var i :| 0 <= i < |t.ps| && t.ps[i].state == ZOMBIE && t.ps[i].pid == pid;
        assert s.ps[i].state == ZOMBIE;
      }
    }
    forall pid: nat ensures IsReaped(t, pid) <==> IsReaped(s, pid) {}
  }

  lemma ShuffleRests(s: State, t: State)
    requires Rests(s) && Shuffled(s, t)
    requires forall i: nat :: i < |s.ps| ==> (t.ps[i].state == RUNNING ==> t.ps[i].chan == NONE)
    requires forall i: nat :: i < |s.ps| && t.ps[i].state == SLEEPING ==>
      || t.ps[i].chan >= |s.ps|
      || (s.ps[i].state == SLEEPING && t.ps[i].chan == s.ps[i].chan)
      || (t.ps[i].chan == i && (forall c: nat :: !ZombieChild(s.ps, c, i)) && (exists c: nat :: Child(s.ps, c, i)))
    ensures Rests(t)
  {
    forall i: nat | i < |t.ps| ensures Rest(t, i) {
      assert Rest(s, i);
      assert forall c: nat :: Child(t.ps, c, i) <==> Child(s.ps, c, i);
      assert forall c: nat :: ZombieChild(t.ps, c, i) <==> ZombieChild(s.ps, c, i);
    }
  }

  predicate Shuffle(t: Step) {
    t.Sleep? || t.Wakeup? || t.Kill? || t.Yield? || t.Dispatch? || t.WaitNone? || t.WaitSleep?
  }

  lemma ShuffledStep(s: State, t: Step)
    requires Inv(s) && Enabled(s, t) && Shuffle(t)
    ensures Shuffled(s, Apply(s, t))
    ensures forall i: nat :: i < |s.ps| && Apply(s, t).ps[i].state == RUNNING ==> Apply(s, t).ps[i].chan == NONE
  {
    hide Ties, Accounts, Pids, Tree, Lineage;
    var s' := Apply(s, t);
    forall i: nat | i < |s.ps| ensures s'.ps[i].state == RUNNING ==> s'.ps[i].chan == NONE {
      assert Rest(s, i);
    }
    hide Rests, Child, ZombieChild;
  }

  lemma ShuffleStep(s: State, t: Step)
    requires Inv(s) && Enabled(s, t) && Shuffle(t)
    ensures Tree(Apply(s, t)) && Rests(Apply(s, t)) && Pids(Apply(s, t)) && Accounts(Apply(s, t))
  {
    hide Ties, Accounts, Pids, Tree, Rests, Lineage;
    var s' := Apply(s, t);
    ShuffledStep(s, t);
    ShuffleTree(s, s');
    ShufflePids(s, s');
    ShuffleRests(s, s');
  }

  // ---- fork ----

  /** Only slot i differs. */
  ghost predicate OnlySlot(s: State, t: State, i: nat) {
    i < |s.ps| == |t.ps| && t.init == s.init && forall j :: 0 <= j < |s.ps| && j != i ==> t.ps[j] == s.ps[j]
  }

  /** A slot that is neither alive nor a zombie before and after is nobody's parent and no one's waker. */
  lemma SlotTies(s: State, t: State, i: nat)
    requires Tree(s) && OnlySlot(s, t, i) && !Alive(s.ps[i]) && Ties(t, i) && i != s.init
    requires Named(t.ps[i]) ==> t.ps[s.init].pid < t.ps[i].pid
    ensures Tree(t)
  {
    assert Ties(s, s.init);
    forall j: nat | j < |t.ps| ensures Ties(t, j) { assert Ties(s, j); }
  }

  lemma SlotRests(s: State, t: State, i: nat)
    requires Rests(s) && OnlySlot(s, t, i) && t.ps[i].state != ZOMBIE && s.ps[i].state != ZOMBIE
    requires t.ps[i].parent == s.ps[i].parent || (s.ps[i].parent == NONE && t.ps[i].parent >= 0 && t.ps[i].parent != i)
    requires Rest(t, i) && s.ps[i].state != SLEEPING
    ensures Rests(t)
  {
    forall j: nat | j < |t.ps| ensures Rest(t, j) {
      assert Rest(s, j);
      if j != i && s.ps[j].state == SLEEPING && s.ps[j].chan == j {
        var c: nat :| Child(s.ps, c, j);
        assert Child(t.ps, c, j);
        forall d: nat ensures !ZombieChild(t.ps, d, j) { assert !ZombieChild(s.ps, d, j); }
      }
    }
  }

  lemma SlotZombies(s: State, t: State, i: nat)
    requires OnlySlot(s, t, i) && t.ps[i].state != ZOMBIE && s.ps[i].state != ZOMBIE && t.reaped == s.reaped
    ensures forall pid: nat :: (IsZombie(t, pid) <==> IsZombie(s, pid)) && (IsReaped(t, pid) <==> IsReaped(s, pid))
  {
    forall pid: nat ensures IsZombie(t, pid) <==> IsZombie(s, pid) {
      if IsZombie(s, pid) {
        var k :| 0 <= k < |s.ps| && s.ps[k].state == ZOMBIE && s.ps[k].pid == pid;
        assert t.ps[k].state == ZOMBIE;
      }
      if IsZombie(t, pid) {
        var k :| 0 <= k < |t.ps| && t.ps[k].state == ZOMBIE && t.ps[k].pid == pid;
        assert s.ps[k].state == ZOMBIE;
      }
    }
  }

  predicate Forks(t: Step) { t.AllocProc? || t.AllocFail? || t.SetParent? || t.Start? }

  lemma ForkTree(s: State, t: Step)
    requires Inv(s) && Enabled(s, t) && Forks(t)
    ensures Tree(Apply(s, t)) && Rests(Apply(s, t))
  {
    hide Accounts;
    var s' := Apply(s, t);
    var i := t.i;
    assert Ties(s, i) && Rest(s, i) && Rest(s, t.p);
    assert Ties(s', i);
    SlotTies(s, s', i);
    assert Rest(s', i);
    SlotRests(s, s', i);
  }

  lemma ForkPids(s: State, t: Step)
    requires Inv(s) && Enabled(s, t) && Forks(t)
    ensures Pids(Apply(s, t)) && Accounts(Apply(s, t))
  {
    hide Tree, Rests;
    var s' := Apply(s, t);
    SlotZombies(s, s', t.i);
  }

  // ---- exit ----

  lemma ExitFacts(s: State, p: nat)
    requires Tree(s) && Rests(s) && Enabled(s, Exit(p))
    ensures var t := Apply(s, Exit(p));
      && |t.ps| == |s.ps| && t.ps[p].state == ZOMBIE && t.ps[p].parent == s.ps[p].parent
      && s.ps[p].parent != p && s.ps[p].parent != NONE
      && (forall i :: 0 <= i < |s.ps| ==>
            && t.ps[i].pid == s.ps[i].pid && t.ps[i].chan == s.ps[i].chan && t.ps[i].maker == s.ps[i].maker
            && t.ps[i].parent == if s.ps[i].parent == p then s.init else s.ps[i].parent)
      && (forall i :: 0 <= i < |s.ps| && i != p ==>
            if Alive(s.ps[i]) then Alive(t.ps[i]) && (t.ps[i].state == s.ps[i].state || t.ps[i].state == RUNNABLE)
            else t.ps[i].state == s.ps[i].state)
      && (forall i: nat :: i < |s.ps| && i != p && t.ps[i].state == SLEEPING ==>
            && s.ps[i].state == SLEEPING && s.ps[i].chan != s.ps[p].parent
            && (s.ps[i].chan == s.init ==> forall z: nat :: !ZombieChild(s.ps, z, p)))
  {
    assert Ties(s, p);
    var w := Wake(s.ps, s.ps[p].parent);
    assert Rest(s, p);
    forall z: nat ensures ZombieChild(w, z, p) <==> ZombieChild(s.ps, z, p) {}
  }

  lemma ExitTree(s: State, p: nat)
    requires Inv(s) && Enabled(s, Exit(p))
    ensures Tree(Apply(s, Exit(p)))
  {
    hide Rests, Accounts, Apply;
    ExitFacts(s, p);
    var t := Apply(s, Exit(p));
    ExitInit(s, p);
    assert Ties(s, s.init);
    forall i: nat | i < |t.ps| ensures Ties(t, i) {
      assert Ties(s, i);
      if s.ps[i].state == EMBRYO { assert s.ps[i].maker != p; }
    }
  }

  lemma ExitInit(s: State, p: nat)
    requires Enabled(s, Exit(p))
    ensures Apply(s, Exit(p)).init == s.init && s.init != p
    ensures forall i :: 0 <= i < |s.ps| && s.ps[i].state == EMBRYO ==> s.ps[i].maker != p
  {
  }

  lemma ExitRests(s: State, p: nat)
    requires Inv(s) && Enabled(s, Exit(p))
    ensures Rests(Apply(s, Exit(p)))
  {
    hide Accounts, Apply, Pids;
    ExitFacts(s, p);
    ExitInit(s, p);
    var t := Apply(s, Exit(p));
    forall i: nat | i < |t.ps| ensures Rest(t, i) {
      assert Rest(s, i);
      if t.ps[i].state == SLEEPING && t.ps[i].chan == i {
        ExitSleeper(s, p, i);
      }
    }
  }

  /** A process still asleep in wait is not the parent of the exiting one, and init is asleep only
      if it inherits no zombie. */
  lemma ExitSleeper(s: State, p: nat, i: nat)
    requires Inv(s) && Enabled(s, Exit(p)) && i < |s.ps|
    requires Apply(s, Exit(p)).ps[i].state == SLEEPING && Apply(s, Exit(p)).ps[i].chan == i
    ensures var ps := Apply(s, Exit(p)).ps; (forall c: nat :: !ZombieChild(ps, c, i)) && (exists c: nat :: Child(ps, c, i))
  {
    hide Accounts, Apply, Pids;
    ExitFacts(s, p);
    ExitInit(s, p);
    var t := Apply(s, Exit(p));
    assert Rest(s, i);
    forall c: nat ensures !ZombieChild(t.ps, c, i) {
      assert i == s.init ==> !ZombieChild(s.ps, c, p);
      if c < |s.ps| && s.ps[c].parent != p { assert !ZombieChild(s.ps, c, i); }
    }
    var c: nat :| Child(s.ps, c, i);
    assert i != p;
    assert Child(t.ps, c, i);
  }

  /** t has the same slots as s but slot z, alive in s, is a zombie. */
  lemma OneZombie(s: State, t: State, z: nat)
    requires |t.ps| == |s.ps| && z < |s.ps| && t.ps[z].state == ZOMBIE && t.reaped == s.reaped
    requires forall i :: 0 <= i < |s.ps| ==> t.ps[i].pid == s.ps[i].pid
    requires forall i :: 0 <= i < |s.ps| && i != z ==> (t.ps[i].state == ZOMBIE <==> s.ps[i].state == ZOMBIE)
    ensures forall pid: nat :: IsZombie(t, pid) <==> IsZombie(s, pid) || pid == s.ps[z].pid
    ensures forall pid: nat :: IsReaped(t, pid) <==> IsReaped(s, pid)
  {
    forall pid: nat ensures IsZombie(t, pid) <==> IsZombie(s, pid) || pid == s.ps[z].pid {
      assert t.ps[z].state == ZOMBIE;
      if IsZombie(s, pid) {
        var k :| 0 <= k < |s.ps| && s.ps[k].state == ZOMBIE && s.ps[k].pid == pid;
        assert t.ps[k].state == ZOMBIE;
      }
      if IsZombie(t, pid) {
        var k :| 0 <= k < |t.ps| && t.ps[k].state == ZOMBIE && t.ps[k].pid == pid;
        assert k == z || s.ps[k].state == ZOMBIE;
      }
    }
  }

  lemma ExitPids(s: State, p: nat)
    requires Inv(s) && Enabled(s, Exit(p))
    ensures Pids(Apply(s, Exit(p))) && Accounts(Apply(s, Exit(p)))
  {
    hide Apply, Rests;
    ExitFacts(s, p);
    ExitLedger(s, p);
    var t := Apply(s, Exit(p));
    OneZombie(s, t, p);
    hide Tree, IsZombie, IsReaped, Child, ZombieChild;
    assert Alive(s.ps[p]);
    assert !IsReaped(s, s.ps[p].pid) by { assert s.ps[p].pid !in s.exited; NotReaped(s, s.ps[p].pid); }
  }

  lemma NotReaped(s: State, pid: nat)
    requires Accounts(s) && pid !in s.exited
    ensures !IsReaped(s, pid)
  {
  }

  lemma ExitLedger(s: State, p: nat)
    requires Enabled(s, Exit(p))
    ensures var t := Apply(s, Exit(p));
      t.exited == s.exited + {s.ps[p].pid} && t.reaped == s.reaped && t.nextpid == s.nextpid
  {
  }

  // ---- wait ----

  lemma ReapTies(s: State, p: nat, c: nat)
    requires Inv(s) && Enabled(s, WaitReap(p, c))
    ensures Tree(Apply(s, WaitReap(p, c)))
  {
    hide Accounts, Pids, Rests;
    var t := Apply(s, WaitReap(p, c));
    assert Ties(s, c);
    forall i: nat | i < |t.ps| ensures Ties(t, i) { assert Ties(s, i); }
  }

  lemma ReapTree(s: State, p: nat, c: nat)
    requires Inv(s) && Enabled(s, WaitReap(p, c))
    ensures Tree(Apply(s, WaitReap(p, c))) && Rests(Apply(s, WaitReap(p, c)))
  {
    ReapTies(s, p, c);
    assert Ties(s, c) && Rest(s, c) && Rest(s, p);
    hide Accounts, Pids, Tree;
    var t := Apply(s, WaitReap(p, c));
    forall i: nat | i < |t.ps| ensures Rest(t, i) {
      assert Rest(s, i);
      if i != p && i != c && s.ps[i].state == SLEEPING && s.ps[i].chan == i {
        var d: nat :| Child(s.ps, d, i);
        assert Child(t.ps, d, i);
        forall d: nat ensures !ZombieChild(t.ps, d, i) { assert !ZombieChild(s.ps, d, i); }
      }
    }
  }

  lemma ReapedOne(s: State, t: State, pid0: nat, parent: nat)
    requires t.reaped == s.reaped + [(pid0, parent)]
    ensures forall pid: nat :: IsReaped(t, pid) <==> IsReaped(s, pid) || pid == pid0
  {
    assert t.reaped[|s.reaped|].0 == pid0;
    forall pid: nat ensures IsReaped(t, pid) <==> IsReaped(s, pid) || pid == pid0 {
      if IsReaped(s, pid) {
        var k :| 0 <= k < |s.reaped| && s.reaped[k].0 == pid;
        assert t.reaped[k].0 == pid;
      }
    }
  }

  /** The zombies left are the others. */
  lemma ReapZombies(s: State, p: nat, c: nat)
    requires Inv(s) && Enabled(s, WaitReap(p, c))
    ensures Pids(Apply(s, WaitReap(p, c))) && IsZombie(s, s.ps[c].pid)
    ensures forall pid: nat :: IsZombie(Apply(s, WaitReap(p, c)), pid) <==> IsZombie(s, pid) && pid != s.ps[c].pid
  {
    var t := Apply(s, WaitReap(p, c));
    var pid0 := s.ps[c].pid;
    assert Ties(s, c);
    hide Tree, Rests, Accounts, Lineage;
    forall pid: nat ensures IsZombie(t, pid) <==> IsZombie(s, pid) && pid != pid0 {
      if IsZombie(s, pid) && pid != pid0 {
        var k :| 0 <= k < |s.ps| && s.ps[k].state == ZOMBIE && s.ps[k].pid == pid;
        assert t.ps[k].state == ZOMBIE;
      }
      if IsZombie(t, pid) {
        var k :| 0 <= k < |t.ps| && t.ps[k].state == ZOMBIE && t.ps[k].pid == pid;
        assert s.ps[k].state == ZOMBIE && k != c;
      }
    }
  }

  lemma ReapPids(s: State, p: nat, c: nat)
    requires Inv(s) && Enabled(s, WaitReap(p, c))
    ensures Pids(Apply(s, WaitReap(p, c))) && Accounts(Apply(s, WaitReap(p, c)))
  {
    var t := Apply(s, WaitReap(p, c));
    var pid0 := s.ps[c].pid;
    hide Tree, Rests, Lineage, Pids, IsZombie;
    ReapZombies(s, p, c);
    ReapedOne(s, t, pid0, s.ps[p].pid);
    hide IsReaped;
    assert !IsReaped(s, pid0) by { assert pid0 in s.exited; }
  }

  // ---- runs ----

  lemma StepKeeps(s: State, t: Step)
    requires Inv(s) && Enabled(s, t)
    ensures Inv(Apply(s, t))
  {
    hide Tree, Rests, Pids, Accounts, Lineage, Apply;
    LineageStep(s, t);
    if Shuffle(t) {
      ShuffleStep(s, t);
    } else if Forks(t) {
      ForkTree(s, t);
      ForkPids(s, t);
    } else if t.Exit? {
      ExitTree(s, t.p);
      ExitRests(s, t.p);
      ExitPids(s, t.p);
    } else {
      ReapTree(s, t.p, t.c);
      ReapPids(s, t.p, t.c);
    }
  }

  /** After userinit: one process, and every other slot unused. */
  ghost predicate Initial(s: State) {
    && s.init < |s.ps| && s.ps[s.init] == Proc(RUNNABLE, NONE, 1, NONE, false, NONE)
    && (forall i :: 0 <= i < |s.ps| && i != s.init ==> s.ps[i].state == UNUSED && s.ps[i].parent == NONE)
    && s.nextpid == 2 && s.forker == map[] && s.exited == {} && s.reaped == []
  }

  ghost predicate Valid(s: State, ts: seq<Step>)
    decreases |ts|, 0
  {
    ts == [] || (Valid(s, ts[..|ts|-1]) && Enabled(Exec(s, ts[..|ts|-1]), ts[|ts|-1]))
  }

  ghost function Exec(s: State, ts: seq<Step>): State
    requires Valid(s, ts)
    decreases |ts|, 1
  {
    if ts == [] then s else Apply(Exec(s, ts[..|ts|-1]), ts[|ts|-1])
  }

  lemma {:induction false} RunKeeps(s: State, ts: seq<Step>)
    requires Initial(s) && Valid(s, ts)
    ensures Inv(Exec(s, ts))
    decreases |ts|
  {
    if ts == [] {
    } else {
      hide Inv;
      RunKeeps(s, ts[..|ts|-1]);
      StepKeeps(Exec(s, ts[..|ts|-1]), ts[|ts|-1]);
    }
  }

  /** Nobody asleep in wait has a zombie child, and everybody asleep in wait has a child that can
      still exit. */
  ghost predicate WaitersSafe(s: State) {
    forall p: nat :: p < |s.ps| && s.ps[p].state == SLEEPING && s.ps[p].chan == p ==>
      (forall c: nat :: !ZombieChild(s.ps, c, p)) && (exists c: nat :: Child(s.ps, c, p))
  }

  /** Parents are live and older than their children, so following parents from any process ends at init. */
  ghost predicate ParentsLive(s: State) {
    forall i: nat :: i < |s.ps| && i != s.init && (Alive(s.ps[i]) || s.ps[i].state == ZOMBIE) ==>
      Elder(s.ps, s.ps[i].parent, s.ps[i])
  }

  /** Every exited process is a zombie or has been reaped, not both, and reaped at most once. */
  ghost predicate ReapedOnce(s: State) {
    && (forall pid: nat :: pid in s.exited ==> (IsReaped(s, pid) <==> !IsZombie(s, pid)))
    && (forall j, k :: 0 <= j < k < |s.reaped| ==> s.reaped[j].0 != s.reaped[k].0)
  }

  /** Every process is reaped by the process that forked it, or by init once that one has exited. */
  ghost predicate ReapedByHeir(s: State) {
    forall k :: 0 <= k < |s.reaped| ==> Heir(s, s.reaped[k].0, s.reaped[k].1)
  }

  lemma InvSafe(s: State)
    requires Inv(s)
    ensures WaitersSafe(s) && ParentsLive(s) && ReapedOnce(s) && ReapedByHeir(s)
  {
    forall p: nat | p < |s.ps| && s.ps[p].state == SLEEPING && s.ps[p].chan == p
      ensures (forall c: nat :: !ZombieChild(s.ps, c, p)) && (exists c: nat :: Child(s.ps, c, p))
    {
      assert Rest(s, p);
    }
    forall i: nat | i < |s.ps| && i != s.init && (Alive(s.ps[i]) || s.ps[i].state == ZOMBIE)
      ensures Elder(s.ps, s.ps[i].parent, s.ps[i])
    {
      assert Ties(s, i);
    }
  }

  /** The exit/wait protocol is safe in every run, through every reparenting and kill. */
  lemma ExitWaitSafe(s0: State, ts: seq<Step>)
    requires Initial(s0) && Valid(s0, ts)
    ensures WaitersSafe(Exec(s0, ts)) && ParentsLive(Exec(s0, ts)) && ReapedOnce(Exec(s0, ts)) && ReapedByHeir(Exec(s0, ts))
  {
    hide Inv, WaitersSafe, ParentsLive, ReapedOnce, ReapedByHeir;
    RunKeeps(s0, ts);
    InvSafe(Exec(s0, ts));
  }

  // ---- the loops over the table ----

  class PTable {
    const proc: array<Proc>

    constructor (ps: Table)
      ensures fresh(proc) && proc[..] == ps
    {
      proc := new Proc[|ps|](i requires 0 <= i < |ps| => ps[i]);
    }

    method Wakeup1(chan: int)
      modifies proc
      ensures proc[..] == Wake(old(proc[..]), chan)
    {
      var i := 0;
      while i < proc.Length
        invariant i <= proc.Length
        invariant proc[..i] == Wake(old(proc[..]), chan)[..i] && proc[i..] == old(proc[..])[i..]
      {
        assert proc[i] == proc[i..][0];
        if proc[i].state == SLEEPING && proc[i].chan == chan {
          proc[i] := proc[i].(state := RUNNABLE);
        }
        i := i + 1;
      }
    }

    /** The part of exit under ptable.lock. */
    method Exit(p: nat, init: nat)
      requires p < proc.Length
      modifies proc
      ensures proc[..] == ExitTable(old(proc[..]), p, init)
      // p is a zombie, its children are init's, and whoever sleeps on its parent, or on init when init is left a
      // zombie child, can run; nothing else changes
      ensures forall i: nat :: i < proc.Length ==>
        var was := old(proc[..])[i];
        proc[..][i] == was.(parent := if was.parent == p then init else was.parent, state := LeftAs(old(proc[..]), p, init, i))
    {
      hide LeftAs;
      Wakeup1(proc[p].parent);
      ghost var w := proc[..];
      var q := 0;
      while q < proc.Length
        invariant q <= proc.Length
        invariant forall i :: 0 <= i < proc.Length ==> proc[i] == Partly(w, p, init, q, i)
      {
        if proc[q].parent == p {
          proc[q] := proc[q].(parent := init);
          if proc[q].state == ZOMBIE {
            assert ZombieChild(w, q, p);
            Wakeup1(init);
          }
        }
        PartlyNext(w, p, init, q);
        q := q + 1;
      }
      PartlyAll(w, p, init);
      assert proc[..] == Abandon(w, p, init);
      proc[p] := proc[p].(state := ZOMBIE);
      ExitSlots(old(proc[..]), p, init);
    }

    /** wait's scan: reap the first zombie child, or say whether there are children at all. */
    method WaitScan(p: nat) returns (found: bool, c: nat, pid: nat, havekids: bool)
      modifies proc
      ensures found ==> ZombieChild(old(proc[..]), c, p) && pid == old(proc[..])[c].pid && proc[..] == Reap(old(proc[..]), c)
      // the slot is free for allocproc, and every other is as it was
      ensures found ==> proc[..][c] == old(proc[..])[c].(pid := 0, parent := NONE, killed := false, state := UNUSED)
      ensures found ==> forall i: nat :: i < proc.Length && i != c ==> proc[..][i] == old(proc[..])[i]
      ensures !found ==> proc[..] == old(proc[..]) && forall z: nat :: !ZombieChild(proc[..], z, p)
      ensures !found ==> (havekids <==> exists k: nat :: Child(proc[..], k, p))
    {
      found, c, pid, havekids := false, 0, 0, false;
      ghost var ps := proc[..];
      var i := 0;
      while i < proc.Length
        invariant i <= proc.Length && proc[..] == ps
        invariant forall z: nat :: z < i ==> !ZombieChild(ps, z, p)
        invariant havekids <==> exists k: nat :: k < i && Child(ps, k, p)
      {
        assert proc[i] == ps[i];
        if proc[i].parent == p {
          assert Child(ps, i, p);
          havekids := true;
          if proc[i].state == ZOMBIE {
            pid := proc[i].pid;
            proc[i] := proc[i].(pid := 0, parent := NONE, killed := false, state := UNUSED);
            return true, i, pid, true;
          }
        }
        i := i + 1;
      }
    }

    /** kill: mark the first slot with that pid, and wake it if it sleeps. */
    method Kill(pid: nat) returns (ok: bool)
      modifies proc
      ensures ok <==> exists q: nat :: HasPid(old(proc[..]), q, pid)
      ensures !ok ==> proc[..] == old(proc[..])
      ensures ok ==> exists q: nat :: FirstPid(old(proc[..]), q, pid) && proc[..] == old(proc[..])[q := Killed(old(proc[..])[q])]
      // the slot is killed, and runnable if it slept
      ensures forall q: nat :: FirstPid(old(proc[..]), q, pid) ==>
        var was := old(proc[..])[q];
        proc[..][q] == was.(killed := true, state := if was.state == SLEEPING then RUNNABLE else was.state)
    {
      ghost var ps := proc[..];
      var i := 0;
      while i < proc.Length
        invariant i <= proc.Length && proc[..] == ps && forall j: nat :: j < i ==> !HasPid(ps, j, pid)
      {
        assert proc[i] == ps[i];
        if proc[i].pid == pid {
          assert FirstPid(ps, i, pid);
          proc[i] := proc[i].(killed := true);
          if proc[i].state == SLEEPING { proc[i] := proc[i].(state := RUNNABLE); }
          assert proc[..] == ps[i := Killed(ps[i])];
          return true;
        }
        i := i + 1;
      }
      ok := false;
    }
  }

  predicate HasPid(ps: Table, q: nat, pid: nat) { q < |ps| && ps[q].pid == pid }

  ghost predicate FirstPid(ps: Table, q: nat, pid: nat) {
    HasPid(ps, q, pid) && forall j: nat :: j < q ==> !HasPid(ps, j, pid)
  }

  function Killed(q: Proc): Proc {
    q.(killed := true, state := if q.state == SLEEPING then RUNNABLE else q.state)
  }

  /** The state of slot i after exit. */
  ghost function LeftAs(ps: Table, p: nat, init: nat, i: nat): PState
    requires p < |ps| && i < |ps|
  {
    if i == p then ZOMBIE
    else if ps[i].state == SLEEPING && (ps[i].chan == ps[p].parent || (ps[i].chan == init && exists z: nat :: ZombieChild(ps, z, p)))
    then RUNNABLE
    else ps[i].state
  }

  /** A wakeup makes no zombie. */
  lemma SameZombies(ps: Table, w: Table, p: nat)
    requires p < |ps| && w == Wake(ps, ps[p].parent)
    ensures forall z: nat :: ZombieChild(w, z, p) <==> ZombieChild(ps, z, p)
  {
  }

  lemma ExitSlots(ps: Table, p: nat, init: nat)
    requires p < |ps|
    ensures |ExitTable(ps, p, init)| == |ps|
    ensures forall i: nat :: i < |ps| ==>
      ExitTable(ps, p, init)[i] == ps[i].(parent := if ps[i].parent == p then init else ps[i].parent, state := LeftAs(ps, p, init, i))
  {
    SameZombies(ps, Wake(ps, ps[p].parent), p);
    hide ZombieChild;
  }

  /** Slot i once exit's loop has passed the first q slots. */
  ghost function Partly(ps: Table, p: nat, init: nat, q: nat, i: nat): Proc
    requires i < |ps|
  {
    var kept := if i < q && ps[i].parent == p then ps[i].(parent := init) else ps[i];
    if ps[i].state == SLEEPING && ps[i].chan == init && SeenZombie(ps, p, q) then kept.(state := RUNNABLE) else kept
  }

  ghost predicate SeenZombie(ps: Table, p: nat, q: nat) {
    exists z: nat :: z < q && ZombieChild(ps, z, p)
  }

  lemma PartlyNext(ps: Table, p: nat, init: nat, q: nat)
    ensures SeenZombie(ps, p, q + 1) <==> SeenZombie(ps, p, q) || ZombieChild(ps, q, p)
  {
  }

  lemma PartlyAll(ps: Table, p: nat, init: nat)
    ensures SeenZombie(ps, p, |ps|) <==> exists z: nat :: ZombieChild(ps, z, p)
  {
  }
}
