/** Path names over the directory tree: which walks can meet an inode that has been freed. */
module NamespaceWalk {
  import opened Namespace
  import opened Paths

  type Fs = Namespace.Fs
  type Name = Namespace.Name

  function TableOf(fs: Fs): Table { map d | d in fs :: Node(fs[d].kind.Dir?, fs[d].entries) }

  /** Neither a removed directory nor a freed inode. */
  predicate Alive(fs: Fs, x: Inum) { x in fs && (IsDir(fs, x) ==> Linked(fs, x)) }

  lemma ChildAlive(fs: Fs, d: Inum, n: Name)
    requires Inv(fs) && Linked(fs, d) && n in fs[d].entries
    ensures Alive(fs, fs[d].entries[n])
  {
    var x := fs[d].entries[n];
    assert Dotted(fs, d) && Counted(fs, x);
    if n != DOT {
      assert Names(fs, d, n, x);
      assert (d, n) in Refs(fs, x);
    }
  }

  /** A walk that starts in a linked directory never panics, and arrives at inodes that are there. */
  lemma {:induction false} LinkedWalk(fs: Fs, at: Inum, es: seq<Name>)
    requires Inv(fs) && Alive(fs, at)
    ensures var r := Walk(TableOf(fs), at, es); r != Panic && (r.At? ==> Alive(fs, r.value))
    decreases |es|
  {
    hide Inv;
    if es != [] && IsDir(fs, at) && es[0] in fs[at].entries {
      ChildAlive(fs, at, es[0]);
      LinkedWalk(fs, fs[at].entries[es[0]], es[1..]);
    }
  }

  /** So an absolute path never panics, nor one taken from a linked directory, in any sound run. */
  lemma SoundWalk(ts: seq<Step>, cwd: Inum, path: seq<int>)
    requires Valid(Fresh(), ts) && AllSound(Fresh(), ts)
    requires var fs := Exec(Fresh(), ts); (path != [] && path[0] == SLASH) || Linked(fs, cwd)
    ensures var t, at := TableOf(Exec(Fresh(), ts)), if path != [] && path[0] == SLASH then ROOTINO else cwd;
      Walk(t, at, Elements(path)) != Panic && WalkParent(t, at, Elements(path)) != Panic
  {
    FreshInv();
    RunIff(Fresh(), ts);
    var fs := Exec(Fresh(), ts);
    assert Inv(fs) && Linked(fs, ROOT);
    hide Inv;
    var at := if path != [] && path[0] == SLASH then ROOTINO else cwd;
    LinkedWalk(fs, at, Elements(path));
    ParentPanics(TableOf(fs), at, Elements(path));
  }

  /** A directory that has been removed while somebody held it. */
  predicate Orphan(fs: Fs, d: Inum) { IsDir(fs, d) && !Linked(fs, d) }

  lemma OrphanDots(fs: Fs, d: Inum, n: Name)
    requires Inv(fs) && Orphan(fs, d) && n in fs[d].entries
    ensures !Proper(n)
  {
    assert Dotted(fs, d) && Counted(fs, d);
  }

  /** The only name that can miss its inode is the ".." of a removed directory, so create panics
      for a freed inode only there, and unlink never panics. */
  lemma MissingName(fs: Fs, d: Inum, n: Name)
    requires Inv(fs) && IsDir(fs, d) && n in fs[d].entries
    ensures fs[d].entries[n] !in fs ==> Orphan(fs, d) && n == DOTDOT
    ensures Proper(n) ==> fs[d].entries[n] in fs && fs[fs[d].entries[n]].nlink >= 1
  {
    if Linked(fs, d) {
      ChildAlive(fs, d, n);
      if Proper(n) {
        var x := fs[d].entries[n];
        assert Names(fs, d, n, x) && Counted(fs, x);
        assert (d, n) in Refs(fs, x);
      }
    } else {
      OrphanDots(fs, d, n);
      assert Dotted(fs, d);
    }
  }

  /** The lookups ps climb through removed directories only, by "." and "..". */
  predicate Climbing(fs: Fs, es: seq<Name>, ps: seq<Inum>) {
    |ps| <= |es| && forall k :: 0 <= k < |ps| - 1 ==> Orphan(fs, ps[k]) && !Proper(es[k])
  }

  lemma {:induction false} StrandedClimbs(fs: Fs, at: Inum, es: seq<Name>, ps: seq<Inum>)
    requires Inv(fs) && Stranded(TableOf(fs), at, es, ps)
    ensures Climbing(fs, es, ps)
    decreases |ps|
  {
    hide Inv;
    if |ps| > 1 {
      StrandedTail(TableOf(fs), at, es, ps);
      PanicsIff(TableOf(fs), at, es);
      if Linked(fs, at) {
        LinkedWalk(fs, at, es);
      }
      OrphanDots(fs, at, es[0]);
      StrandedClimbs(fs, fs[at].entries[es[0]], es[1..], ps[1..]);
      forall k | 0 <= k < |ps| - 1 ensures Orphan(fs, ps[k]) && !Proper(es[k]) {
        if k > 0 { assert Orphan(fs, ps[1..][k - 1]) && !Proper(es[1..][k - 1]); }
      }
    }
  }

  /** Exactly when a walk panics: it climbs out of removed directories to a freed one, and has a
      name left to look up there. */
  lemma WalkPanicsIff(fs: Fs, at: Inum, es: seq<Name>)
    requires Inv(fs)
    ensures Walk(TableOf(fs), at, es) == Panic <==> exists ps :: Stranded(TableOf(fs), at, es, ps) && Climbing(fs, es, ps)
  {
    hide Inv, Climbing;
    PanicsIff(TableOf(fs), at, es);
    forall ps | Stranded(TableOf(fs), at, es, ps) ensures Climbing(fs, es, ps) {
      StrandedClimbs(fs, at, es, ps);
    }
  }

  lemma ExtendSound(fs: Fs, ts: seq<Step>, t: Step, next: Fs)
    requires Valid(fs, ts) && AllSound(fs, ts) && Enabled(Exec(fs, ts), t) && Sound(Exec(fs, ts), t) && Apply(Exec(fs, ts), t) == next
    ensures Valid(fs, ts + [t]) && AllSound(fs, ts + [t]) && Exec(fs, ts + [t]) == next
  {
    hide Enabled, Sound, Apply;
    assert (ts + [t])[..|ts|] == ts;
  }

  function Folder(nlink: int, self: Inum, up: Inum, refs: nat): Ino { Ino(Dir, nlink, map[DOT := self, DOTDOT := up], refs) }

  function Holding(d: Ino, n: Name, x: Inum): Ino { d.(entries := d.entries[n := x]) }

  const A: Name := [97]
  const B: Name := [98]

  function Stage(k: nat): Fs {
    if k == 0 then Fresh()
    else if k == 1 then map[ROOT := Holding(Folder(2, ROOT, ROOT, 0), A, 2), 2 := Folder(1, 2, ROOT, 1)]
    else if k == 2 then Stage(1)[2 := Holding(Folder(2, 2, ROOT, 1), B, 3)][3 := Folder(1, 3, 2, 1)]
    else if k == 3 then Stage(2)[2 := Holding(Folder(2, 2, ROOT, 0), B, 3)]
    else if k == 4 then Stage(3)[2 := Folder(1, 2, ROOT, 0)][3 := Folder(0, 3, 2, 1)]
    else Stage(4)[ROOT := Folder(1, ROOT, ROOT, 0)] - {2}
  }

  function Act(k: nat): Step {
    if k == 0 then Create(ROOT, A, Dir, 2)
    else if k == 1 then Create(2, B, Dir, 3)
    else if k == 2 then Drop(2)
    else if k == 3 then Unlink(2, B)
    else Unlink(ROOT, A)
  }

  predicate Leads(fs: Fs, t: Step, next: Fs) { Enabled(fs, t) && Sound(fs, t) && Apply(fs, t) == next }

  lemma StageStep(k: nat)
    requires k < 5
    ensures Leads(Stage(k), Act(k), Stage(k + 1))
  {
    var fs := Stage(k);
    if k == 3 {
      RemovedOne(fs, 2, B, 3, ROOT);
    } else if k == 4 {
      RemovedOne(fs, ROOT, A, 2, ROOT);
    }
  }

  lemma RemovedOne(fs: Fs, p: Inum, n: Name, d: Inum, q: Inum)
    requires Proper(n) && p in fs && d in fs && d != p && fs[p] == Holding(Folder(2, p, q, fs[p].refs), n, d) && fs[d] == Folder(1, d, p, fs[d].refs)
    ensures var t := Unlink(p, n); var fs' := fs[p := Folder(1, p, q, fs[p].refs)];
      Leads(fs, t, if fs[d].refs == 0 then fs' - {d} else fs'[d := Folder(0, d, p, fs[d].refs)])
  {
    assert fs[p].entries - {n} == Folder(1, p, q, 0).entries;
    assert fs[d].entries.Keys == {DOT, DOTDOT};
  }

  lemma {:induction false} Staged(k: nat) returns (ts: seq<Step>)
    requires k <= 5
    ensures Valid(Fresh(), ts) && AllSound(Fresh(), ts) && Exec(Fresh(), ts) == Stage(k)
  {
    hide Enabled, Sound, Apply;
    if k == 0 {
      ts := [];
    } else {
      var us := Staged(k - 1);
      StageStep(k - 1);
      hide Stage;
      ExtendSound(Fresh(), us, Act(k - 1), Stage(k));
      ts := us + [Act(k - 1)];
    }
  }

  /** Such walks exist: make a and a/b, stay in a/b, and remove both. Then "../x" panics for
      every x, although the run is sound and the invariant holds. */
  lemma OrphanRun(x: Name) returns (ts: seq<Step>)
    ensures Valid(Fresh(), ts) && AllSound(Fresh(), ts) && Inv(Exec(Fresh(), ts))
    ensures var fs := Exec(Fresh(), ts); Orphan(fs, 3) && fs[3].refs > 0 && Walk(TableOf(fs), 3, [DOTDOT, x]) == Panic
  {
    FreshInv();
    hide Inv, Valid, Exec, AllSound, Fresh;
    ts := Staged(5);
    RunIff(Fresh(), ts);
    AlwaysNow(Fresh(), ts);
    EndsOrphaned(x);
  }

  lemma EndsOrphaned(x: Name)
    ensures Orphan(Stage(5), 3) && Stage(5)[3].refs > 0 && Walk(TableOf(Stage(5)), 3, [DOTDOT, x]) == Panic
  {
    assert [DOTDOT, x][1..] == [x];
  }

  lemma AlwaysNow(fs: Fs, ts: seq<Step>)
    requires Valid(fs, ts) && Always(fs, ts)
    ensures Inv(Exec(fs, ts))
  {
    hide Inv;
  }
}
