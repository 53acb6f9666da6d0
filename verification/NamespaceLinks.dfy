/** sys_link in two halves: it raises the count of the old inode, lets go of its lock, and only
    later enters the new name.  Other operations run in between. */
module NamespaceLinks {
  import opened Namespace

  /** The inodes, and for each the links whose count has been raised and whose name is not in yet. */
  datatype State = State(fs: Fs, pending: map<Inum, nat>)

  function Owed(s: State, x: Inum): nat { if x in s.pending then s.pending[x] else 0 }

  /** The file system without the links in progress. */
  function Settle(s: State): Fs {
    map x | x in s.fs :: s.fs[x].(nlink := s.fs[x].nlink - Owed(s, x))
  }

  /** nlink is a short; a link in progress is to a file that is there and holds a reference to it. */
  ghost predicate Sane(s: State) {
    && (forall x :: x in s.fs ==> -32768 <= s.fs[x].nlink <= MAXLINK)
    && (forall x :: Owed(s, x) > 0 ==> x in s.fs && !s.fs[x].kind.Dir? && Owed(s, x) <= s.fs[x].refs)
  }

  /** Counts are names and links in progress; the rest is as in the invariant. */
  ghost predicate Balanced(s: State) { Sane(s) && Inv(Settle(s)) }

  datatype Act =
    | Whole(t: Step)                           // any operation but a link
    | LinkStart(x: Inum)                       // ip->nlink++
    | LinkFinish(dp: Inum, n: Name, x: Inum)   // dirlink, iput
    | LinkUndo(x: Inum)                        // bad: ip->nlink--, iput

  predicate MayAct(s: State, a: Act) {
    match a
    case Whole(t) => !t.Link? && Enabled(s.fs, t) && (t.Drop? ==> s.fs[t.x].refs > Owed(s, t.x))
    case LinkStart(x) => x in s.fs && !s.fs[x].kind.Dir?
    case LinkFinish(dp, n, x) => Owed(s, x) > 0 && x in s.fs && s.fs[x].refs > 0 && IsDir(s.fs, dp) && n !in s.fs[dp].entries && x != dp
    case LinkUndo(x) => Owed(s, x) > 0 && x in s.fs && s.fs[x].refs > 0
  }

  function Raise(fs: Fs, x: Inum, k: int): Fs
    requires x in fs
  {
    fs[x := fs[x].(nlink := Short(fs[x].nlink + k))]
  }

  function Enter(fs: Fs, dp: Inum, n: Name, x: Inum): Fs
    requires dp in fs
  {
    fs[dp := fs[dp].(entries := fs[dp].entries[n := x])]
  }

  function Owe(s: State, x: Inum, k: int): map<Inum, nat>
    requires Owed(s, x) + k >= 0
  {
    s.pending[x := Owed(s, x) + k]
  }

  function Acted(s: State, a: Act): State
    requires MayAct(s, a)
  {
    match a
    case Whole(t) => s.(fs := Apply(s.fs, t))
    case LinkStart(x) => State(Taken(Raise(s.fs, x, 1), x), Owe(s, x, 1))
    case LinkFinish(dp, n, x) => State(Dropped(Enter(s.fs, dp, n, x), x), Owe(s, x, -1))
    case LinkUndo(x) => State(Dropped(Raise(s.fs, x, -1), x), Owe(s, x, -1))
  }

  /** As for whole operations; a link overflows when it starts, and can miss its directory when
      it finishes. */
  predicate SoundAct(s: State, a: Act) {
    match a
    case Whole(t) => Sound(s.fs, t)
    case LinkStart(x) => x in s.fs && s.fs[x].nlink < MAXLINK
    case LinkFinish(dp, n, x) => Linked(s.fs, dp)
    case LinkUndo(x) => true
  }

  // ---- whole operations ----

  lemma SettleSame(s: State, d: Inum)
    requires Sane(s)
    ensures IsDir(Settle(s), d) <==> IsDir(s.fs, d)
    ensures Linked(Settle(s), d) <==> Linked(s.fs, d)
    ensures IsDir(s.fs, d) ==> Owed(s, d) == 0 && Settle(s)[d] == s.fs[d]
  {
  }

  lemma WholeCreate(s: State, t: Step)
    requires Sane(s) && t.Create? && Enabled(s.fs, t)
    ensures Enabled(Settle(s), t) && Settle(s.(fs := Apply(s.fs, t))) == Apply(Settle(s), t) && Sane(s.(fs := Apply(s.fs, t)))
  {
    SettleSame(s, t.dp);
  }

  /** Freeing what nothing names and nobody holds: a link in progress is a hold. */
  lemma FreeMatches(s: State, x: Inum)
    requires Sane(s)
    ensures Settle(s.(fs := Settled(s.fs, x))) == Settled(Settle(s), x) && Sane(s.(fs := Settled(s.fs, x)))
  {
  }

  lemma DetachedSettles(s: State, dp: Inum, n: Name, x: Inum)
    requires Sane(s) && CanUnlink(s.fs, dp, n) && x == s.fs[dp].entries[n] && s.fs[x].nlink - Owed(s, x) >= 1
    ensures CanUnlink(Settle(s), dp, n) && Settle(s.(fs := Detached(s.fs, dp, n))) == Detached(Settle(s), dp, n)
  {
    SettleSame(s, dp);
    SettleSame(s, x);
    var a, b := Settle(s.(fs := Detached(s.fs, dp, n))), Detached(Settle(s), dp, n);
    assert a.Keys == s.fs.Keys == b.Keys;
    forall y | y in a ensures a[y] == b[y] {
      DetachedAt(s, dp, n, x, y);
    }
    hide Settle, Detached, Sane;
  }

  lemma DetachedAt(s: State, dp: Inum, n: Name, x: Inum, y: Inum)
    requires Sane(s) && CanUnlink(s.fs, dp, n) && x == s.fs[dp].entries[n] && s.fs[x].nlink - Owed(s, x) >= 1 && y in s.fs
    ensures CanUnlink(Settle(s), dp, n) && y in Detached(Settle(s), dp, n) && y in Detached(s.fs, dp, n)
    ensures Settle(s.(fs := Detached(s.fs, dp, n)))[y] == Detached(Settle(s), dp, n)[y]
  {
    SettleSame(s, dp);
    SettleSame(s, x);
  }

  lemma DetachedSane(s: State, dp: Inum, n: Name)
    requires Sane(s) && CanUnlink(s.fs, dp, n)
    ensures Sane(s.(fs := Detached(s.fs, dp, n)))
  {
  }

  lemma WholeUnlink(s: State, t: Step)
    requires Balanced(s) && t.Unlink? && Enabled(s.fs, t)
    ensures Enabled(Settle(s), t) && Settle(s.(fs := Apply(s.fs, t))) == Apply(Settle(s), t) && Sane(s.(fs := Apply(s.fs, t)))
  {
    hide Inv, Detached, Settled, Settle, Sane;
    var x := s.fs[t.dp].entries[t.n];
    UnlinkCount(s, t.dp, t.n);
    DetachedSettles(s, t.dp, t.n, x);
    DetachedSane(s, t.dp, t.n);
    FreeMatches(s.(fs := Detached(s.fs, t.dp, t.n)), x);
    SettleKeys(s, t.dp);
  }

  lemma SettleKeys(s: State, d: Inum)
    ensures Settle(s).Keys == s.fs.Keys && (d in s.fs ==> Settle(s)[d].entries == s.fs[d].entries)
  {
  }

  /** An entry other than the dots has a settled link behind it. */
  lemma UnlinkCount(s: State, dp: Inum, n: Name)
    requires Balanced(s) && CanUnlink(s.fs, dp, n)
    ensures var x := s.fs[dp].entries[n]; s.fs[x].nlink - Owed(s, x) >= 1
  {
    SettleSame(s, dp);
    var fs, x := Settle(s), s.fs[dp].entries[n];
    assert Dotted(fs, dp) && Counted(fs, dp) && Counted(fs, x);
    assert Names(fs, dp, n, x);
    assert (dp, n) in Refs(fs, x);
  }

  function Less(fs: Fs, x: Inum): Fs
    requires x in fs && fs[x].refs > 0
  {
    fs[x := fs[x].(refs := fs[x].refs - 1)]
  }

  lemma LessSettles(s: State, x: Inum)
    requires Sane(s) && x in s.fs && s.fs[x].refs > Owed(s, x)
    ensures x in Settle(s) && Settle(s)[x].refs > 0 && Settle(s.(fs := Less(s.fs, x))) == Less(Settle(s), x) && Sane(s.(fs := Less(s.fs, x)))
  {
  }

  lemma WholeTake(s: State, x: Inum)
    requires Sane(s) && x in s.fs
    ensures x in Settle(s) && Settle(s.(fs := Taken(s.fs, x))) == Taken(Settle(s), x) && Sane(s.(fs := Taken(s.fs, x)))
  {
  }

  lemma WholeDrop(s: State, x: Inum)
    requires Sane(s) && x in s.fs && s.fs[x].refs > Owed(s, x)
    ensures x in Settle(s) && Settle(s)[x].refs > 0
    ensures Settle(s.(fs := Dropped(s.fs, x))) == Dropped(Settle(s), x) && Sane(s.(fs := Dropped(s.fs, x)))
  {
    LessSettles(s, x);
    hide Settle, Sane, Settled;
    FreeMatches(s.(fs := Less(s.fs, x)), x);
  }

  lemma WholeMatches(s: State, t: Step)
    requires Balanced(s) && MayAct(s, Whole(t))
    ensures var z := Acted(s, Whole(t)); Enabled(Settle(s), t) && Settle(z) == Apply(Settle(s), t) && Sane(z)
    ensures Sound(Settle(s), t) <==> Sound(s.fs, t)
  {
    hide Inv, Settle, Sane, Settled, Detached;
    match t
    case Create(dp, n, kind, x) =>
      WholeCreate(s, t);
      SettleSame(s, dp);
    case Unlink(dp, n) => WholeUnlink(s, t);
    case Take(x) => WholeTake(s, x);
    case Drop(x) => WholeDrop(s, x);
  }

  // ---- the halves of a link ----

  lemma StartMatches(s: State, x: Inum)
    requires Sane(s) && MayAct(s, LinkStart(x)) && s.fs[x].nlink < MAXLINK
    ensures var z := Acted(s, LinkStart(x)); x in Settle(s) && Settle(z) == Taken(Settle(s), x) && Sane(z)
  {
    StartSane(s, x);
    var z := Acted(s, LinkStart(x));
    assert Settle(z).Keys == s.fs.Keys == Taken(Settle(s), x).Keys;
    hide Sane, Settle, Acted, Taken;
    forall y | y in s.fs ensures Settle(z)[y] == Taken(Settle(s), x)[y] {
      StartAt(s, x, y);
    }
  }

  lemma StartAt(s: State, x: Inum, y: Inum)
    requires MayAct(s, LinkStart(x)) && -32768 <= s.fs[x].nlink < MAXLINK && y in s.fs
    ensures y in Settle(Acted(s, LinkStart(x))) && x in Settle(s)
    ensures Settle(Acted(s, LinkStart(x)))[y] == Taken(Settle(s), x)[y]
  {
    ShortFits(s.fs[x].nlink + 1);
    hide Short;
  }

  lemma StartSane(s: State, x: Inum)
    requires Sane(s) && MayAct(s, LinkStart(x))
    ensures Sane(Acted(s, LinkStart(x)))
  {
  }

  lemma StartOverflows(s: State, x: Inum)
    requires Sane(s) && MayAct(s, LinkStart(x)) && s.fs[x].nlink == MAXLINK
    ensures !Inv(Settle(Acted(s, LinkStart(x))))
  {
    var fs := Settle(Acted(s, LinkStart(x)));
    assert fs[x].nlink < 0;
    hide Settle, Acted, Refs;
    assert !Counted(fs, x);
  }

  lemma SettledCount(s: State, x: Inum)
    requires Balanced(s) && x in s.fs
    ensures s.fs[x].nlink - Owed(s, x) >= 0
  {
    hide Refs;
    assert Counted(Settle(s), x);
  }

  lemma FinishMatches(s: State, dp: Inum, n: Name, x: Inum)
    requires Balanced(s) && MayAct(s, LinkFinish(dp, n, x))
    ensures CanLink(Settle(s), dp, n, x) && Added(Settle(s), dp, n, x)[x].refs > 0
    ensures var z := Acted(s, LinkFinish(dp, n, x)); Settle(z) == Dropped(Added(Settle(s), dp, n, x), x) && Sane(z)
    ensures Settle(s)[x].nlink < MAXLINK && Added(Settle(s), dp, n, x)[x].nlink > 0
  {
    SettledCount(s, x);
    hide Inv;
    EnterSettles(s, dp, n, x);
    hide Settle, Sane, Settled;
    FreeMatches(State(Less(Enter(s.fs, dp, n, x), x), Owe(s, x, -1)), x);
  }

  /** The name comes in as the debt goes out. */
  lemma EnterSettles(s: State, dp: Inum, n: Name, x: Inum)
    requires Sane(s) && MayAct(s, LinkFinish(dp, n, x)) && s.fs[x].nlink - Owed(s, x) >= 0
    ensures CanLink(Settle(s), dp, n, x) && Settle(s)[x].nlink < MAXLINK
    ensures Added(Settle(s), dp, n, x)[x].refs > 0 && Added(Settle(s), dp, n, x)[x].nlink > 0
    ensures var z := State(Less(Enter(s.fs, dp, n, x), x), Owe(s, x, -1));
      Settle(z) == Less(Added(Settle(s), dp, n, x), x) && Sane(z)
  {
    SettleSame(s, dp);
    EnterSane(s, dp, n, x);
    var z := State(Less(Enter(s.fs, dp, n, x), x), Owe(s, x, -1));
    var a, b := Settle(z), Less(Added(Settle(s), dp, n, x), x);
    assert a.Keys == b.Keys;
    forall y | y in a ensures a[y] == b[y] {
      EnterAt(s, dp, n, x, y);
    }
    hide Sane;
  }

  lemma EnterSane(s: State, dp: Inum, n: Name, x: Inum)
    requires Sane(s) && MayAct(s, LinkFinish(dp, n, x))
    ensures Sane(State(Less(Enter(s.fs, dp, n, x), x), Owe(s, x, -1)))
  {
  }

  lemma EnterAt(s: State, dp: Inum, n: Name, x: Inum, y: Inum)
    requires Sane(s) && MayAct(s, LinkFinish(dp, n, x)) && s.fs[x].nlink - Owed(s, x) >= 0 && y in s.fs
    ensures var z := State(Less(Enter(s.fs, dp, n, x), x), Owe(s, x, -1));
      y in Settle(z) && Settle(z)[y] == Less(Added(Settle(s), dp, n, x), x)[y]
  {
    SettleSame(s, dp);
  }

  lemma UndoMatches(s: State, x: Inum)
    requires Balanced(s) && MayAct(s, LinkUndo(x))
    ensures x in Settle(s) && Settle(s)[x].refs > 0
    ensures var z := Acted(s, LinkUndo(x)); Settle(z) == Dropped(Settle(s), x) && Sane(z)
  {
    SettledCount(s, x);
    hide Inv;
    LowerSettles(s, x);
    hide Settle, Sane, Settled;
    FreeMatches(State(Less(Raise(s.fs, x, -1), x), Owe(s, x, -1)), x);
  }

  lemma LowerSettles(s: State, x: Inum)
    requires Sane(s) && MayAct(s, LinkUndo(x)) && s.fs[x].nlink - Owed(s, x) >= 0
    ensures x in Settle(s) && Settle(s)[x].refs > 0
    ensures var z := State(Less(Raise(s.fs, x, -1), x), Owe(s, x, -1)); Settle(z) == Less(Settle(s), x) && Sane(z)
  {
  }

  /** Dropping a reference to a linked inode changes nothing else, so it mends nothing. */
  lemma DropOnly(fs: Fs, x: Inum)
    requires x in fs && fs[x].refs > 0 && fs[x].nlink > 0 && Inv(Dropped(fs, x))
    ensures Inv(fs)
  {
    var z := Dropped(fs, x);
    assert SameTree(z, fs);
    SameCore(z, fs);
    hide Core;
  }

  lemma FinishIff(s: State, dp: Inum, n: Name, x: Inum)
    requires Balanced(s) && MayAct(s, LinkFinish(dp, n, x))
    ensures Balanced(Acted(s, LinkFinish(dp, n, x))) <==> Linked(s.fs, dp)
  {
    FinishMatches(s, dp, n, x);
    SettleSame(s, dp);
    var fs := Settle(s);
    LinkIff(fs, dp, n, x);
    hide Inv, Settle, Acted, Sane, Linked, Dropped;
    if Inv(Added(fs, dp, n, x)) {
      DropKeeps(Added(fs, dp, n, x), x);
    } else if Inv(Dropped(Added(fs, dp, n, x), x)) {
      DropOnly(Added(fs, dp, n, x), x);
    }
  }

  /** With the halves of sys_link apart, a step still keeps counts and tree exactly when it is sound. */
  lemma ActIff(s: State, a: Act)
    requires Balanced(s) && MayAct(s, a)
    ensures Balanced(Acted(s, a)) <==> SoundAct(s, a)
  {
    match a
    case Whole(t) =>
      WholeMatches(s, t);
      hide Inv, Settle, Acted, Sane, Apply, Enabled, Sound;
      StepIff(Settle(s), t);
    case LinkStart(x) =>
      if s.fs[x].nlink < MAXLINK {
        StartMatches(s, x);
        hide Inv, Settle, Acted, Sane;
        TakeKeeps(Settle(s), x);
      } else {
        StartOverflows(s, x);
      }
    case LinkFinish(dp, n, x) => FinishIff(s, dp, n, x);
    case LinkUndo(x) =>
      UndoMatches(s, x);
      hide Inv, Settle, Acted, Sane;
      DropKeeps(Settle(s), x);
  }

  // ---- runs ----

  ghost predicate ValidActs(s: State, acts: seq<Act>)
    decreases |acts|, 0
  {
    acts == [] || (ValidActs(s, acts[..|acts| - 1]) && MayAct(ExecActs(s, acts[..|acts| - 1]), acts[|acts| - 1]))
  }

  ghost function ExecActs(s: State, acts: seq<Act>): State
    requires ValidActs(s, acts)
    decreases |acts|, 1
  {
    if acts == [] then s else Acted(ExecActs(s, acts[..|acts| - 1]), acts[|acts| - 1])
  }

  ghost predicate AllSoundActs(s: State, acts: seq<Act>)
    requires ValidActs(s, acts)
    decreases |acts|
  {
    acts == [] || (AllSoundActs(s, acts[..|acts| - 1]) && SoundAct(ExecActs(s, acts[..|acts| - 1]), acts[|acts| - 1]))
  }

  ghost predicate AlwaysBalanced(s: State, acts: seq<Act>)
    requires ValidActs(s, acts)
    decreases |acts|
  {
    Balanced(ExecActs(s, acts)) && (acts == [] || AlwaysBalanced(s, acts[..|acts| - 1]))
  }

  /** In every interleaving: a link count is the names and the links in progress, and the
      directories form a tree, throughout, exactly when every step is sound. */
  lemma {:induction false} InterleavedIff(s: State, acts: seq<Act>)
    requires Balanced(s) && ValidActs(s, acts)
    ensures AlwaysBalanced(s, acts) <==> AllSoundActs(s, acts)
  {
    hide Balanced, SoundAct, MayAct, Acted;
    if acts != [] {
      var us := acts[..|acts| - 1];
      InterleavedIff(s, us);
      if Balanced(ExecActs(s, us)) {
        ActIff(ExecActs(s, us), acts[|acts| - 1]);
      } else {
        assert !AlwaysBalanced(s, us);
      }
    }
  }

  /** When no link is in progress the counts are the names. */
  lemma AtRest(s: State)
    requires Balanced(s) && forall x :: Owed(s, x) == 0
    ensures Inv(s.fs)
  {
    assert Settle(s) == s.fs;
  }
}
