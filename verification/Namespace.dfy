/** Link counts and the directory tree under the operations of sysfile.c.  Directory contents
    are the maps that module Directory proves dirlookup and dirlink to keep. */
module Namespace {
  import Directory

  type Inum = int
  type Name = seq<int>

  const ROOT: Inum := 1
  const DOT: Name := Directory.DOT
  const DOTDOT: Name := Directory.DOTDOT
  const MAXLINK: int := 32767    // nlink is a short

  datatype Kind = Dir | File | Dev

  /** refs counts open files and current directories, which keep an inode after its last
      name is gone. */
  datatype Ino = Ino(kind: Kind, nlink: int, entries: map<Name, Inum>, refs: nat)

  type Fs = map<Inum, Ino>

  function Short(n: int): int { (n + 32768) % 65536 - 32768 }

  lemma ShortFits(n: int)
    requires -32768 <= n <= MAXLINK
    ensures Short(n) == n
  {
  }

  /** One step up or down goes round at the ends of a short. */
  lemma ShortSteps(n: int)
    requires -32768 <= n <= MAXLINK
    ensures Short(n + 1) == if n == MAXLINK then -32768 else n + 1
    ensures Short(n - 1) == if n == -32768 then MAXLINK else n - 1
  {
  }

  // ---- the invariant ----

  predicate IsDir(fs: Fs, d: Inum) { d in fs && fs[d].kind.Dir? }
  predicate Linked(fs: Fs, d: Inum) { IsDir(fs, d) && fs[d].nlink > 0 }

  /** Entry n of the linked directory d, not its ".", names x. */
  predicate Names(fs: Fs, d: Inum, n: Name, x: Inum) {
    Linked(fs, d) && n != DOT && n in fs[d].entries && fs[d].entries[n] == x
  }

  /** The entries that count as links to x. */
  ghost function Refs(fs: Fs, x: Inum): set<(Inum, Name)> {
    set d, n | d in fs && n in fs[d].entries && Names(fs, d, n, x) :: (d, n)
  }

  predicate Proper(n: Name) { n != DOT && n != DOTDOT }

  /** Every directory has its dots; one without a name left has nothing else. */
  predicate Dotted(fs: Fs, d: Inum) {
    && d in fs && DOT in fs[d].entries && fs[d].entries[DOT] == d
    && DOTDOT in fs[d].entries
    && (fs[d].nlink == 0 ==> fs[d].entries.Keys == {DOT, DOTDOT})
  }

  function Parent(fs: Fs, d: Inum): Inum {
    if d in fs && DOTDOT in fs[d].entries then fs[d].entries[DOTDOT] else d
  }

  ghost predicate Counted(fs: Fs, x: Inum) {
    x in fs ==> fs[x].nlink == |Refs(fs, x)| <= MAXLINK
  }

  ghost predicate Counts(fs: Fs) {
    forall x :: Counted(fs, x)
  }

  /** No linked entry names a freed inode. */
  ghost predicate Targets(fs: Fs) {
    forall d, n :: Linked(fs, d) && n in fs[d].entries ==> fs[d].entries[n] in fs
  }

  ghost predicate Dots(fs: Fs) {
    forall d :: IsDir(fs, d) ==> Dotted(fs, d)
  }

  /** A name in its parent, for a linked directory. */
  ghost predicate Named(fs: Fs, d: Inum) {
    exists n :: Proper(n) && Names(fs, Parent(fs, d), n, d)
  }

  /** Linked directories other than the root have exactly one name, in their parent; the root
      has none. */
  ghost predicate OneName(fs: Fs) {
    && (forall d :: Linked(fs, d) && d != ROOT ==> Named(fs, d))
    && (forall p, n, d :: Proper(n) && Names(fs, p, n, d) && IsDir(fs, d) ==> d != ROOT && p == Parent(fs, d))
    && (forall p, n, m, d :: Proper(n) && Proper(m) && Names(fs, p, n, d) && Names(fs, p, m, d) && IsDir(fs, d) ==> n == m)
  }

  ghost predicate Rooted(fs: Fs) { Linked(fs, ROOT) && Parent(fs, ROOT) == ROOT }

  /** Depth falls by one towards the root. */
  ghost predicate Ranked(fs: Fs, h: map<Inum, nat>) {
    forall d :: Linked(fs, d) ==> d in h && (d != ROOT ==> Parent(fs, d) in h && h[d] == h[Parent(fs, d)] + 1)
  }

  /** What nothing names and nobody holds has been freed. */
  predicate Held(fs: Fs) {
    forall x :: x in fs && fs[x].nlink == 0 ==> fs[x].refs > 0
  }

  ghost predicate Core(fs: Fs) {
    Counts(fs) && Targets(fs) && Dots(fs) && OneName(fs) && Rooted(fs) && exists h :: Ranked(fs, h)
  }

  ghost predicate Inv(fs: Fs) { Core(fs) && Held(fs) }

  // ---- what the invariant means ----

  function Climb(fs: Fs, d: Inum, k: nat): Inum
    decreases k
  {
    if k == 0 then d else Climb(fs, Parent(fs, d), k - 1)
  }

  lemma {:induction false} ClimbRank(fs: Fs, h: map<Inum, nat>, d: Inum)
    requires Ranked(fs, h) && OneName(fs) && Linked(fs, d)
    ensures exists k :: Climb(fs, d, k) == ROOT
    decreases h[d]
  {
    if d == ROOT {
      assert Climb(fs, d, 0) == ROOT;
    } else {
      assert Named(fs, d);
      ClimbRank(fs, h, Parent(fs, d));
      var k: nat :| Climb(fs, Parent(fs, d), k) == ROOT;
      assert Climb(fs, d, k + 1) == ROOT;
    }
  }

  /** From every linked directory, ".." leads to the root: the directories form one tree. */
  lemma Tree(fs: Fs, d: Inum)
    requires Inv(fs) && Linked(fs, d)
    ensures exists k :: Climb(fs, d, k) == ROOT
  {
    var h :| Ranked(fs, h);
    ClimbRank(fs, h, d);
  }

  lemma SameRef(fs: Fs, p: Inum, n: Name, d: Inum, q: Inum, m: Name)
    requires OneName(fs) && Rooted(fs) && IsDir(fs, d) && fs[d].entries.Keys == {DOT, DOTDOT}
    requires Proper(n) && Names(fs, p, n, d) && Names(fs, q, m, d)
    ensures q == p && m == n
  {
    assert d != ROOT && p == Parent(fs, d);
    if m == DOTDOT {
      assert false;
    }
  }

  /** A directory that holds only its dots has exactly one link. */
  lemma EmptyDir(fs: Fs, p: Inum, n: Name, d: Inum)
    requires Inv(fs) && Proper(n) && Names(fs, p, n, d) && IsDir(fs, d) && fs[d].entries.Keys == {DOT, DOTDOT}
    ensures fs[d].nlink == 1 && d != ROOT && p != d && Parent(fs, d) == p && Refs(fs, d) == {(p, n)}
  {
    forall q, m | Names(fs, q, m, d) ensures q == p && m == n {
      SameRef(fs, p, n, d, q, m);
    }
    assert d != ROOT && p == Parent(fs, d) && n in fs[p].entries;
    hide OneName, Targets, Dots, Rooted, Held, Ranked;
    assert Refs(fs, d) == {(p, n)} && Counted(fs, d);
  }

  // ---- the operations, between begin_op and end_op ----

  /** A successful create: ialloc's new inode, linked into dp. */
  function Created(fs: Fs, dp: Inum, n: Name, kind: Kind, x: Inum): Fs
    requires dp in fs
  {
    var d := fs[dp];
    var child := Ino(kind, 1, if kind.Dir? then map[DOT := x, DOTDOT := dp] else map[], 1);
    fs[x := child][dp := d.(entries := d.entries[n := x], nlink := if kind.Dir? then Short(d.nlink + 1) else d.nlink)]
  }

  /** What create makes: an inode of the kind asked for, with one link and one reference, and for a
      directory its dots; a name for it in dp; and nothing else. */
  lemma CreatedIs(fs: Fs, dp: Inum, n: Name, kind: Kind, x: Inum)
    requires CanCreate(fs, dp, n, x) && -32768 <= fs[dp].nlink <= MAXLINK
    ensures var z := Created(fs, dp, n, kind, x);
      && z.Keys == fs.Keys + {x}
      && z[x].kind == kind && z[x].nlink == 1 && z[x].refs == 1
      && z[x].entries == (if kind == Dir then map[DOT := x, DOTDOT := dp] else map[])
      && z[dp].entries == fs[dp].entries[n := x] && z[dp].nlink == (if kind != Dir then fs[dp].nlink else if fs[dp].nlink == MAXLINK then -32768 else fs[dp].nlink + 1)
      && z[dp].kind == fs[dp].kind && z[dp].refs == fs[dp].refs
      && forall y :: y in fs && y != dp ==> z[y] == fs[y]
  {
    ShortSteps(fs[dp].nlink);
  }

  predicate CanCreate(fs: Fs, dp: Inum, n: Name, x: Inum) {
    IsDir(fs, dp) && n !in fs[dp].entries && x !in fs
  }

  /** A successful link of x as entry n of dp. */
  function Added(fs: Fs, dp: Inum, n: Name, x: Inum): Fs
    requires dp in fs && x in fs && x != dp
  {
    fs[x := fs[x].(nlink := Short(fs[x].nlink + 1))][dp := fs[dp].(entries := fs[dp].entries[n := x])]
  }

  /** What link makes: one more link to x, a name for it in dp, and nothing else. */
  lemma AddedIs(fs: Fs, dp: Inum, n: Name, x: Inum)
    requires CanLink(fs, dp, n, x) && -32768 <= fs[x].nlink <= MAXLINK
    ensures var z := Added(fs, dp, n, x);
      && z.Keys == fs.Keys
      && z[x].nlink == (if fs[x].nlink == MAXLINK then -32768 else fs[x].nlink + 1)
      && z[x].kind == fs[x].kind && z[x].entries == fs[x].entries && z[x].refs == fs[x].refs
      && z[dp].entries == fs[dp].entries[n := x]
      && z[dp].nlink == fs[dp].nlink && z[dp].kind == fs[dp].kind && z[dp].refs == fs[dp].refs
      && forall y :: y in fs && y != dp && y != x ==> z[y] == fs[y]
  {
    ShortSteps(fs[x].nlink);
  }

  predicate CanLink(fs: Fs, dp: Inum, n: Name, x: Inum) {
    IsDir(fs, dp) && n !in fs[dp].entries && x in fs && !fs[x].kind.Dir?
  }

  /** A successful unlink of entry n of dp, up to the last iput. */
  function Detached(fs: Fs, dp: Inum, n: Name): Fs
    requires dp in fs && n in fs[dp].entries && fs[dp].entries[n] in fs
  {
    var x := fs[dp].entries[n];
    var d := fs[dp];
    var fs1 := fs[dp := d.(entries := d.entries - {n}, nlink := if fs[x].kind.Dir? then Short(d.nlink - 1) else d.nlink)];
    fs1[x := fs1[x].(nlink := Short(fs1[x].nlink - 1))]
  }

  function Removed(fs: Fs, dp: Inum, n: Name): Fs
    requires dp in fs && n in fs[dp].entries && fs[dp].entries[n] in fs
  {
    Settled(Detached(fs, dp, n), fs[dp].entries[n])
  }

  /** iput's test: an inode without links or holders is freed. */
  function Settled(fs: Fs, x: Inum): Fs {
    if x in fs && fs[x].nlink == 0 && fs[x].refs == 0 then fs - {x} else fs
  }

  predicate CanUnlink(fs: Fs, dp: Inum, n: Name) {
    && IsDir(fs, dp) && Proper(n) && n in fs[dp].entries && fs[dp].entries[n] in fs
    && var x := fs[dp].entries[n];
       fs[x].nlink >= 1 && (fs[x].kind.Dir? ==> fs[x].entries.Keys == {DOT, DOTDOT})
  }

  /** What unlink makes: dp without the name, and without the link of its ".." if a directory goes;
      x with one link less, gone if that was the last and nobody holds it; and nothing else.
      An entry that names dp itself would make sys_unlink wait for a lock it holds. */
  lemma RemovedIs(fs: Fs, dp: Inum, n: Name)
    requires CanUnlink(fs, dp, n) && fs[dp].entries[n] != dp
    requires -32768 <= fs[dp].nlink <= MAXLINK && fs[fs[dp].entries[n]].nlink <= MAXLINK
    ensures var z, x := Removed(fs, dp, n), fs[dp].entries[n];
      && z.Keys == fs.Keys - (if fs[x].nlink == 1 && fs[x].refs == 0 then {x} else {})
      && (x in z ==> z[x].nlink == fs[x].nlink - 1 && z[x].kind == fs[x].kind && z[x].entries == fs[x].entries && z[x].refs == fs[x].refs)
      && z[dp].entries == fs[dp].entries - {n}
      && z[dp].nlink == (if fs[x].kind != Dir then fs[dp].nlink else if fs[dp].nlink == -32768 then MAXLINK else fs[dp].nlink - 1)
      && z[dp].kind == fs[dp].kind && z[dp].refs == fs[dp].refs
      && forall y :: y in fs && y != dp && y != x ==> y in z && z[y] == fs[y]
  {
    var x := fs[dp].entries[n];
    ShortSteps(fs[x].nlink);
    ShortSteps(fs[dp].nlink);
    hide Short;
  }

  function Dropped(fs: Fs, x: Inum): Fs
    requires x in fs && fs[x].refs > 0
  {
    Settled(fs[x := fs[x].(refs := fs[x].refs - 1)], x)
  }

  /** How a change of the entries changes the links to x. */
  lemma RefsBy(fs: Fs, z: Fs, x: Inum, gone: set<(Inum, Name)>, new_: set<(Inum, Name)>)
    requires forall d, m :: Names(z, d, m, x) <==> (Names(fs, d, m, x) && (d, m) !in gone) || (d, m) in new_
    ensures Refs(z, x) == Refs(fs, x) - gone + new_
  {
    hide Names;
    forall r | r in Refs(z, x) ensures r in Refs(fs, x) - gone + new_ {
      IsRef(fs, x, r.0, r.1);
      IsRef(z, x, r.0, r.1);
    }
    forall r | r in Refs(fs, x) - gone + new_ ensures r in Refs(z, x) {
      IsRef(fs, x, r.0, r.1);
      IsRef(z, x, r.0, r.1);
    }
  }

  lemma IsRef(fs: Fs, x: Inum, d: Inum, m: Name)
    ensures (d, m) in Refs(fs, x) <==> Names(fs, d, m, x)
  {
  }

  // ---- create ----

  predicate NewName(kind: Kind, dp: Inum, n: Name, x: Inum, d: Inum, m: Name, y: Inum) {
    (d == dp && m == n && y == x) || (kind.Dir? && d == x && m == DOTDOT && y == dp)
  }

  lemma CreatedNames(fs: Fs, dp: Inum, n: Name, kind: Kind, x: Inum, d: Inum, m: Name, y: Inum)
    requires CanCreate(fs, dp, n, x) && Linked(fs, dp) && Dotted(fs, dp) && (kind.Dir? ==> fs[dp].nlink < MAXLINK)
    ensures Names(Created(fs, dp, n, kind, x), d, m, y) <==> Names(fs, d, m, y) || NewName(kind, dp, n, x, d, m, y)
  {
  }

  lemma CreatedRefs(fs: Fs, dp: Inum, n: Name, kind: Kind, x: Inum, y: Inum)
    requires Targets(fs) && CanCreate(fs, dp, n, x) && Linked(fs, dp) && Dotted(fs, dp) && (kind.Dir? ==> fs[dp].nlink < MAXLINK)
    ensures var z := Created(fs, dp, n, kind, x);
      && (y == x ==> Refs(z, y) == {(dp, n)})
      && (y == dp && kind.Dir? ==> Refs(z, y) == Refs(fs, y) + {(x, DOTDOT)} && (x, DOTDOT) !in Refs(fs, y))
      && (y != x && (y != dp || !kind.Dir?) ==> Refs(z, y) == Refs(fs, y))
  {
    var z := Created(fs, dp, n, kind, x);
    var added := (if y == x then {(dp, n)} else {}) + (if kind.Dir? && y == dp then {(x, DOTDOT)} else {});
    forall d, m ensures Names(z, d, m, y) <==> (Names(fs, d, m, y) && (d, m) !in {}) || (d, m) in added {
      CreatedNames(fs, dp, n, kind, x, d, m, y);
    }
    RefsBy(fs, z, y, {}, added);
    assert y == x ==> Refs(fs, y) == {};
  }

  lemma CreatedLink(fs: Fs, dp: Inum, n: Name, kind: Kind, x: Inum, y: Inum)
    requires dp in fs && 0 < fs[dp].nlink && (kind.Dir? ==> fs[dp].nlink < MAXLINK) && x !in fs && (y in fs || y == x)
    ensures Created(fs, dp, n, kind, x)[y].nlink ==
      if y == x then 1 else if y == dp && kind.Dir? then fs[y].nlink + 1 else fs[y].nlink
  {
    if kind.Dir? {
      ShortFits(fs[dp].nlink + 1);
    }
    hide Short;
  }

  lemma CreatedCount(fs: Fs, dp: Inum, n: Name, kind: Kind, x: Inum, y: Inum)
    requires Counts(fs) && Targets(fs) && CanCreate(fs, dp, n, x) && Linked(fs, dp) && Dotted(fs, dp)
    requires kind.Dir? ==> fs[dp].nlink < MAXLINK
    requires y in fs || y == x
    ensures Created(fs, dp, n, kind, x)[y].nlink == |Refs(Created(fs, dp, n, kind, x), y)| <= MAXLINK
  {
    CreatedRefs(fs, dp, n, kind, x, y);
    assert fs[dp].nlink > 0 && Counted(fs, y);
    var z := Created(fs, dp, n, kind, x);
    CreatedLink(fs, dp, n, kind, x, y);
    hide Refs, Targets, Names, Linked, Dotted, CanCreate, Counts, Created;
  }

  lemma CreatedCounts(fs: Fs, dp: Inum, n: Name, kind: Kind, x: Inum)
    requires Counts(fs) && Targets(fs) && CanCreate(fs, dp, n, x) && Linked(fs, dp) && Dotted(fs, dp)
    requires kind.Dir? ==> fs[dp].nlink < MAXLINK
    ensures Counts(Created(fs, dp, n, kind, x))
  {
    var z := Created(fs, dp, n, kind, x);
    assert z.Keys == fs.Keys + {x};
    hide Refs, Targets, Names, Linked, Dotted, Created;
    forall y ensures Counted(z, y) {
      if y in z {
        CreatedCount(fs, dp, n, kind, x, y);
      }
    }
  }

  lemma CreatedTargets(fs: Fs, dp: Inum, n: Name, kind: Kind, x: Inum)
    requires Targets(fs) && Dots(fs) && CanCreate(fs, dp, n, x) && Linked(fs, dp) && fs[dp].nlink <= MAXLINK
    ensures Targets(Created(fs, dp, n, kind, x)) && Dots(Created(fs, dp, n, kind, x))
  {
    var z := Created(fs, dp, n, kind, x);
    forall d | IsDir(z, d) ensures Dotted(z, d) {
      if d == dp {
        assert Dotted(fs, dp) && z[dp].nlink != 0;
      } else if d != x {
        assert Dotted(fs, d);
      }
    }
  }

  /** The one new directory name, if any, is in the new directory's parent. */
  lemma CreatedProper(fs: Fs, dp: Inum, n: Name, kind: Kind, x: Inum, p: Inum, m: Name, d: Inum)
    requires Targets(fs) && Dotted(fs, dp) && OneName(fs) && Rooted(fs) && CanCreate(fs, dp, n, x) && Linked(fs, dp)
    requires kind.Dir? ==> fs[dp].nlink < MAXLINK
    requires var z := Created(fs, dp, n, kind, x); Proper(m) && Names(z, p, m, d) && IsDir(z, d)
    ensures d != ROOT && p == Parent(Created(fs, dp, n, kind, x), d)
    ensures (Names(fs, p, m, d) && d != x && IsDir(fs, d)) || (p == dp && m == n && d == x)
  {
    CreatedNames(fs, dp, n, kind, x, p, m, d);
    assert Names(fs, p, m, d) ==> d in fs;
  }

  lemma CreatedNamed(fs: Fs, dp: Inum, n: Name, kind: Kind, x: Inum, d: Inum)
    requires Targets(fs) && Dotted(fs, dp) && OneName(fs) && CanCreate(fs, dp, n, x) && Linked(fs, dp)
    requires kind.Dir? ==> fs[dp].nlink < MAXLINK
    requires Linked(Created(fs, dp, n, kind, x), d) && d != ROOT
    ensures Named(Created(fs, dp, n, kind, x), d)
  {
    var z := Created(fs, dp, n, kind, x);
    if d == x {
      CreatedNames(fs, dp, n, kind, x, dp, n, x);
      assert Proper(n) && Names(z, Parent(z, x), n, x);
    } else {
      assert Linked(fs, d) && Parent(z, d) == Parent(fs, d);
      assert Named(fs, d);
      var m :| Proper(m) && Names(fs, Parent(fs, d), m, d);
      CreatedNames(fs, dp, n, kind, x, Parent(fs, d), m, d);
    }
  }

  lemma CreatedOneName(fs: Fs, dp: Inum, n: Name, kind: Kind, x: Inum)
    requires Targets(fs) && Dots(fs) && OneName(fs) && Rooted(fs) && CanCreate(fs, dp, n, x) && Linked(fs, dp)
    requires kind.Dir? ==> fs[dp].nlink < MAXLINK
    ensures OneName(Created(fs, dp, n, kind, x))
  {
    var z := Created(fs, dp, n, kind, x);
    assert Dotted(fs, dp);
    hide Created, Targets, Dots, Names, Linked, Rooted, Dotted, Named;
    forall d | Linked(z, d) && d != ROOT ensures Named(z, d) {
      CreatedNamed(fs, dp, n, kind, x, d);
    }
    forall p, m, d | Proper(m) && Names(z, p, m, d) && IsDir(z, d) ensures d != ROOT && p == Parent(z, d)
      && ((Names(fs, p, m, d) && d != x && IsDir(fs, d)) || (p == dp && m == n && d == x))
    {
      CreatedProper(fs, dp, n, kind, x, p, m, d);
    }
  }

  lemma CreatedRanked(fs: Fs, h: map<Inum, nat>, dp: Inum, n: Name, kind: Kind, x: Inum)
    requires Ranked(fs, h) && OneName(fs) && Rooted(fs) && Dots(fs) && CanCreate(fs, dp, n, x) && Linked(fs, dp)
    requires fs[dp].nlink <= MAXLINK
    ensures Ranked(Created(fs, dp, n, kind, x), h[x := h[dp] + 1])
  {
    var z, g := Created(fs, dp, n, kind, x), h[x := h[dp] + 1];
    assert Dotted(fs, dp);
    forall d | Linked(z, d) && d != x ensures d in h && (d != ROOT ==> Parent(z, d) in h && Parent(z, d) != x && h[d] == h[Parent(z, d)] + 1) {
      assert Linked(fs, d) && Parent(z, d) == Parent(fs, d);
      if d != ROOT {
        assert Named(fs, d);
      }
    }
  }

  lemma CreatedRest(fs: Fs, dp: Inum, n: Name, kind: Kind, x: Inum)
    requires Rooted(fs) && Held(fs) && CanCreate(fs, dp, n, x) && Linked(fs, dp) && Dotted(fs, dp)
    requires kind.Dir? ==> fs[dp].nlink < MAXLINK
    ensures Rooted(Created(fs, dp, n, kind, x)) && Held(Created(fs, dp, n, kind, x))
  {
  }

  lemma CreatedKeeps(fs: Fs, dp: Inum, n: Name, kind: Kind, x: Inum)
    requires Inv(fs) && CanCreate(fs, dp, n, x) && Linked(fs, dp) && (kind.Dir? ==> fs[dp].nlink < MAXLINK)
    ensures Inv(Created(fs, dp, n, kind, x))
  {
    var h :| Ranked(fs, h);
    assert Dotted(fs, dp) && Counted(fs, dp);
    hide Created, Targets, Dots, Names, Rooted, Dotted, OneName, Held, Ranked;
    CreatedCounts(fs, dp, n, kind, x);
    CreatedTargets(fs, dp, n, kind, x);
    CreatedOneName(fs, dp, n, kind, x);
    CreatedRanked(fs, h, dp, n, kind, x);
    CreatedRest(fs, dp, n, kind, x);
  }

  lemma CreateOverflows(fs: Fs, dp: Inum, n: Name, kind: Kind, x: Inum)
    requires dp in fs && x !in fs && kind.Dir? && fs[dp].nlink == MAXLINK
    ensures !Counts(Created(fs, dp, n, kind, x))
  {
    var z := Created(fs, dp, n, kind, x);
    assert z[dp].nlink == -32768 && !Counted(z, dp);
  }

  /** A directory made in one without a name revives it, still without a name. */
  lemma CreateDirUnnamed(fs: Fs, dp: Inum, n: Name, x: Inum)
    requires CanCreate(fs, dp, n, x) && fs[dp].nlink == 0 && Dotted(fs, dp) && Refs(fs, dp) == {} && dp != ROOT
    ensures !OneName(Created(fs, dp, n, Dir, x))
  {
    var z := Created(fs, dp, n, Dir, x);
    ShortFits(1);
    hide Short;
    forall q, m | Proper(m) ensures !Names(z, q, m, dp) {
      IsRef(fs, dp, q, m);
    }
    assert Linked(z, dp) && !Named(z, dp);
  }

  /** A file made in a directory without a name has a link nothing accounts for. */
  lemma CreateFileUnnamed(fs: Fs, dp: Inum, n: Name, kind: Kind, x: Inum)
    requires CanCreate(fs, dp, n, x) && fs[dp].nlink == 0 && !kind.Dir? && Targets(fs)
    ensures !Counts(Created(fs, dp, n, kind, x))
  {
    var z := Created(fs, dp, n, kind, x);
    forall d, m ensures !Names(z, d, m, x) {
      assert Names(z, d, m, x) ==> Names(fs, d, m, x);
    }
    hide Names, Created, Targets;
    assert Refs(z, x) == {};
    CreatedOne(fs, dp, n, kind, x);
    assert !Counted(z, x);
  }

  lemma CreatedOne(fs: Fs, dp: Inum, n: Name, kind: Kind, x: Inum)
    requires dp in fs && x !in fs
    ensures x in Created(fs, dp, n, kind, x) && Created(fs, dp, n, kind, x)[x].nlink == 1
  {
  }

  /** A create in a directory that has lost its name, or whose count is full, breaks it. */
  lemma CreatedBreaks(fs: Fs, dp: Inum, n: Name, kind: Kind, x: Inum)
    requires Inv(fs) && CanCreate(fs, dp, n, x) && (!Linked(fs, dp) || (kind.Dir? && fs[dp].nlink >= MAXLINK))
    ensures !Inv(Created(fs, dp, n, kind, x))
  {
    assert Counted(fs, dp) && Dotted(fs, dp);
    if Linked(fs, dp) {
      CreateOverflows(fs, dp, n, kind, x);
    } else if kind.Dir? {
      assert dp != ROOT;
      hide Created, Counts, Targets, Names, OneName, Refs;
      CreateDirUnnamed(fs, dp, n, x);
    } else {
      hide Created, Counts, Names, OneName, Refs;
      CreateFileUnnamed(fs, dp, n, kind, x);
    }
  }

  /** A create keeps the invariant exactly when its directory still has a name and room for
      the link of a new "..". */
  lemma CreateIff(fs: Fs, dp: Inum, n: Name, kind: Kind, x: Inum)
    requires Inv(fs) && CanCreate(fs, dp, n, x)
    ensures Inv(Created(fs, dp, n, kind, x)) <==> Linked(fs, dp) && (kind.Dir? ==> fs[dp].nlink < MAXLINK)
  {
    if Linked(fs, dp) && (kind.Dir? ==> fs[dp].nlink < MAXLINK) {
      CreatedKeeps(fs, dp, n, kind, x);
    } else {
      CreatedBreaks(fs, dp, n, kind, x);
    }
  }

  // ---- link ----

  lemma AddedNames(fs: Fs, dp: Inum, n: Name, x: Inum, d: Inum, m: Name, y: Inum)
    requires CanLink(fs, dp, n, x) && Dotted(fs, dp)
    ensures Names(Added(fs, dp, n, x), d, m, y) <==> Names(fs, d, m, y) || (Linked(fs, dp) && d == dp && m == n && y == x)
  {
  }

  lemma AddedRefs(fs: Fs, dp: Inum, n: Name, x: Inum, y: Inum)
    requires CanLink(fs, dp, n, x) && Dotted(fs, dp)
    ensures (dp, n) !in Refs(fs, y)
    ensures Refs(Added(fs, dp, n, x), y) == if Linked(fs, dp) && y == x then Refs(fs, y) + {(dp, n)} else Refs(fs, y)
  {
    var z := Added(fs, dp, n, x);
    var added := if Linked(fs, dp) && y == x then {(dp, n)} else {};
    forall d, m ensures Names(z, d, m, y) <==> (Names(fs, d, m, y) && (d, m) !in {}) || (d, m) in added {
      AddedNames(fs, dp, n, x, d, m, y);
    }
    RefsBy(fs, z, y, {}, added);
  }

  lemma AddedLink(fs: Fs, dp: Inum, n: Name, x: Inum, y: Inum)
    requires dp in fs && x in fs && x != dp && y in fs && 0 <= fs[x].nlink <= MAXLINK
    ensures var z := Added(fs, dp, n, x);
      if y != x then z[y].nlink == fs[y].nlink
      else if fs[x].nlink < MAXLINK then z[x].nlink == fs[x].nlink + 1 else z[x].nlink < 0
  {
    if fs[x].nlink < MAXLINK {
      ShortFits(fs[x].nlink + 1);
    } else {
      assert Short(fs[x].nlink + 1) == -32768;
    }
    hide Short;
  }

  lemma AddedCounts(fs: Fs, dp: Inum, n: Name, x: Inum)
    requires Counts(fs) && CanLink(fs, dp, n, x) && Dotted(fs, dp)
    ensures Counts(Added(fs, dp, n, x)) <==> Linked(fs, dp) && fs[x].nlink < MAXLINK
  {
    var z := Added(fs, dp, n, x);
    assert z.Keys == fs.Keys;
    assert Counted(fs, x);
    hide Short, Refs, Dotted, Added, Linked;
    forall y | y != x ensures Counted(z, y) {
      assert Counted(fs, y);
      if y in fs {
        AddedRefs(fs, dp, n, x, y);
        AddedLink(fs, dp, n, x, y);
      }
    }
    AddedRefs(fs, dp, n, x, x);
    AddedLink(fs, dp, n, x, x);
    assert Counted(z, x) <==> Linked(fs, dp) && fs[x].nlink < MAXLINK;
  }

  lemma AddedRest(fs: Fs, dp: Inum, n: Name, x: Inum)
    requires Targets(fs) && Dots(fs) && Rooted(fs) && Held(fs) && CanLink(fs, dp, n, x) && Linked(fs, dp)
    requires 0 <= fs[x].nlink < MAXLINK
    ensures var z := Added(fs, dp, n, x); Targets(z) && Dots(z) && Rooted(z) && Held(z)
  {
    ShortFits(fs[x].nlink + 1);
    hide Short;
    var z := Added(fs, dp, n, x);
    assert Dotted(fs, dp);
    forall d | IsDir(z, d) ensures Dotted(z, d) {
      assert Dotted(fs, d);
    }
  }

  lemma AddedOneName(fs: Fs, h: map<Inum, nat>, dp: Inum, n: Name, x: Inum)
    requires OneName(fs) && Ranked(fs, h) && Dots(fs) && CanLink(fs, dp, n, x) && Linked(fs, dp)
    ensures OneName(Added(fs, dp, n, x)) && Ranked(Added(fs, dp, n, x), h)
  {
    var z := Added(fs, dp, n, x);
    assert Dotted(fs, dp);
    forall d, m, y ensures Names(z, d, m, y) <==> Names(fs, d, m, y) || (d == dp && m == n && y == x) {
      AddedNames(fs, dp, n, x, d, m, y);
    }
    assert forall d :: IsDir(z, d) <==> IsDir(fs, d);
    assert forall d :: Linked(z, d) <==> Linked(fs, d);
    assert forall d :: IsDir(fs, d) ==> Parent(z, d) == Parent(fs, d);
    assert !IsDir(fs, x);
    hide Names, IsDir, Linked, Parent, Added;
    forall d | Linked(z, d) && d != ROOT ensures Named(z, d) {
      assert Named(fs, d);
    }
  }

  /** A link keeps the invariant exactly when its directory still has a name and the count of
      the inode is not full. */
  lemma LinkIff(fs: Fs, dp: Inum, n: Name, x: Inum)
    requires Inv(fs) && CanLink(fs, dp, n, x)
    ensures Inv(Added(fs, dp, n, x)) <==> Linked(fs, dp) && fs[x].nlink < MAXLINK
  {
    assert Dotted(fs, dp);
    AddedCounts(fs, dp, n, x);
    assert Counted(fs, x);
    if Linked(fs, dp) && fs[x].nlink < MAXLINK {
      var h :| Ranked(fs, h);
      AddedOneName(fs, h, dp, n, x);
      AddedRest(fs, dp, n, x);
    }
  }

  // ---- freeing ----

  /** Everything but that x is held. */
  ghost predicate But(fs: Fs, x: Inum) {
    Core(fs) && forall y :: y in fs && y != x && fs[y].nlink == 0 ==> fs[y].refs > 0
  }

  lemma FreedNames(fs: Fs, x: Inum, d: Inum, m: Name, y: Inum)
    requires x in fs && fs[x].nlink == 0
    ensures Names(fs - {x}, d, m, y) <==> Names(fs, d, m, y)
  {
  }

  lemma FreedRefs(fs: Fs, x: Inum, y: Inum)
    requires x in fs && fs[x].nlink == 0
    ensures Refs(fs - {x}, y) == Refs(fs, y)
  {
    forall d, m ensures Names(fs - {x}, d, m, y) <==> (Names(fs, d, m, y) && (d, m) !in {}) || (d, m) in {} {
      FreedNames(fs, x, d, m, y);
    }
    RefsBy(fs, fs - {x}, y, {}, {});
  }

  lemma FreedCounts(fs: Fs, x: Inum)
    requires Counts(fs) && x in fs && fs[x].nlink == 0
    ensures Counts(fs - {x})
  {
    forall y ensures Counted(fs - {x}, y) {
      assert Counted(fs, y);
      FreedRefs(fs, x, y);
    }
  }

  lemma FreedTargets(fs: Fs, x: Inum)
    requires Counts(fs) && Targets(fs) && Dots(fs) && x in fs && fs[x].nlink == 0
    ensures Targets(fs - {x}) && Dots(fs - {x})
  {
    var z := fs - {x};
    assert Counted(fs, x) && Refs(fs, x) == {};
    forall d, n | Linked(z, d) && n in z[d].entries ensures z[d].entries[n] in z {
      assert Linked(fs, d) && Dotted(fs, d);
      IsRef(fs, x, d, n);
    }
    forall d | IsDir(z, d) ensures Dotted(z, d) {
      assert Dotted(fs, d);
    }
  }

  lemma FreedTree(fs: Fs, h: map<Inum, nat>, x: Inum)
    requires OneName(fs) && Rooted(fs) && Ranked(fs, h) && x in fs && fs[x].nlink == 0
    ensures OneName(fs - {x}) && Rooted(fs - {x}) && Ranked(fs - {x}, h)
  {
    var z := fs - {x};
    forall d, m, y ensures Names(z, d, m, y) <==> Names(fs, d, m, y) {
      FreedNames(fs, x, d, m, y);
    }
    assert forall d :: Linked(z, d) <==> Linked(fs, d);
    assert forall d :: d in z ==> Parent(z, d) == Parent(fs, d);
    assert forall d :: IsDir(z, d) ==> IsDir(fs, d);
    hide Names;
    forall d | Linked(z, d) && d != ROOT ensures Named(z, d) {
      assert Named(fs, d);
    }
  }

  lemma SettledKeeps(fs: Fs, x: Inum)
    requires But(fs, x)
    ensures Inv(Settled(fs, x))
  {
    hide Counts, Targets, Dots, OneName, Rooted, Ranked;
    if x in fs && fs[x].nlink == 0 && fs[x].refs == 0 {
      var h :| Ranked(fs, h);
      FreedCounts(fs, x);
      FreedTargets(fs, x);
      FreedTree(fs, h, x);
    }
  }

  // ---- holding and letting go ----

  function Taken(fs: Fs, x: Inum): Fs
    requires x in fs
  {
    fs[x := fs[x].(refs := fs[x].refs + 1)]
  }

  /** Only reference counts differ. */
  predicate SameTree(fs: Fs, z: Fs) {
    && z.Keys == fs.Keys
    && forall x :: x in fs ==> z[x].kind == fs[x].kind && z[x].nlink == fs[x].nlink && z[x].entries == fs[x].entries
  }

  lemma SameRefs(fs: Fs, z: Fs, x: Inum)
    requires SameTree(fs, z)
    ensures Refs(z, x) == Refs(fs, x)
  {
    RefsBy(fs, z, x, {}, {});
  }

  lemma SameOneName(fs: Fs, z: Fs, h: map<Inum, nat>)
    requires SameTree(fs, z) && OneName(fs) && Ranked(fs, h) && Rooted(fs)
    ensures OneName(z) && Ranked(z, h) && Rooted(z)
  {
    assert forall d, m, y :: Names(z, d, m, y) <==> Names(fs, d, m, y);
    assert forall d :: Linked(z, d) <==> Linked(fs, d);
    assert forall d :: IsDir(z, d) <==> IsDir(fs, d);
    assert forall d :: Parent(z, d) == Parent(fs, d);
    hide Names, Linked, IsDir, Parent, SameTree;
    forall d | Linked(z, d) && d != ROOT ensures Named(z, d) {
      assert Named(fs, d);
    }
  }

  lemma SameTargets(fs: Fs, z: Fs)
    requires SameTree(fs, z) && Targets(fs) && Dots(fs)
    ensures Targets(z) && Dots(z)
  {
    forall d | IsDir(z, d) ensures Dotted(z, d) {
      assert Dotted(fs, d);
    }
  }

  lemma SameCounts(fs: Fs, z: Fs)
    requires SameTree(fs, z) && Counts(fs)
    ensures Counts(z)
  {
    hide Refs;
    forall x ensures Counted(z, x) {
      assert Counted(fs, x);
      SameRefs(fs, z, x);
    }
  }

  lemma SameCore(fs: Fs, z: Fs)
    requires SameTree(fs, z) && Core(fs)
    ensures Core(z)
  {
    hide Refs, Targets, Dots, OneName, Rooted, Ranked, Counts, SameTree;
    var h :| Ranked(fs, h);
    SameCounts(fs, z);
    SameTargets(fs, z);
    SameOneName(fs, z, h);
  }

  /** Taking a reference keeps the invariant. */
  lemma TakeKeeps(fs: Fs, x: Inum)
    requires Inv(fs) && x in fs
    ensures Inv(Taken(fs, x))
  {
    hide Core;
    SameCore(fs, Taken(fs, x));
  }

  lemma DroppedBut(fs: Fs, x: Inum)
    requires Inv(fs) && x in fs && fs[x].refs > 0
    ensures But(fs[x := fs[x].(refs := fs[x].refs - 1)], x)
  {
    hide Core;
    SameCore(fs, fs[x := fs[x].(refs := fs[x].refs - 1)]);
  }

  /** iput keeps it, freeing the inode when this was the last hold on it. */
  lemma DropKeeps(fs: Fs, x: Inum)
    requires Inv(fs) && x in fs && fs[x].refs > 0
    ensures Inv(Dropped(fs, x))
  {
    DroppedBut(fs, x);
    hide But, Inv, Settled;
    SettledKeeps(fs[x := fs[x].(refs := fs[x].refs - 1)], x);
  }

  // ---- unlink ----

  /** The parent of an empty directory has a link of its own besides the ".." it will lose. */
  lemma ParentLinks(fs: Fs, dp: Inum, x: Inum)
    requires Counts(fs) && OneName(fs) && Rooted(fs) && Linked(fs, dp) && Dotted(fs, dp) && x != ROOT && Names(fs, x, DOTDOT, dp)
    ensures fs[dp].nlink >= 2
  {
    if dp == ROOT {
      assert Names(fs, ROOT, DOTDOT, ROOT);
      TwoLinks(fs, dp, x, DOTDOT, ROOT, DOTDOT);
    } else {
      assert Named(fs, dp);
      hide OneName, Counts, Names;
      var m :| Proper(m) && Names(fs, Parent(fs, dp), m, dp);
      TwoLinks(fs, dp, x, DOTDOT, Parent(fs, dp), m);
    }
  }

  lemma TwoLinks(fs: Fs, d: Inum, p: Inum, n: Name, q: Inum, m: Name)
    requires Counts(fs) && d in fs && Names(fs, p, n, d) && Names(fs, q, m, d) && (p, n) != (q, m)
    ensures fs[d].nlink >= 2
  {
    IsRef(fs, d, p, n);
    IsRef(fs, d, q, m);
    hide Names, Refs;
    assert Counted(fs, d);
    Bigger({(p, n), (q, m)}, Refs(fs, d));
  }

  lemma Bigger<T>(a: set<T>, b: set<T>)
    requires a <= b
    ensures |a| <= |b|
  {
    assert b == a + (b - a);
  }

  /** What unlink finds before it changes anything. */
  ghost predicate Ready(fs: Fs, dp: Inum, n: Name, x: Inum) {
    && Linked(fs, dp) && Proper(n) && n in fs[dp].entries && fs[dp].entries[n] == x && x in fs && x != dp
    && fs[dp].nlink <= MAXLINK && 1 <= fs[x].nlink <= MAXLINK
    && (fs[x].kind.Dir? ==>
          && fs[x].nlink == 1 && fs[dp].nlink >= 2 && x != ROOT
          && fs[x].entries.Keys == {DOT, DOTDOT} && fs[x].entries[DOT] == x && fs[x].entries[DOTDOT] == dp)
  }

  lemma EntryLinked(fs: Fs, dp: Inum, n: Name)
    requires Counts(fs) && Dots(fs) && CanUnlink(fs, dp, n)
    ensures var x := fs[dp].entries[n];
      && Names(fs, dp, n, x) && Dotted(fs, dp) && (IsDir(fs, x) ==> Dotted(fs, x))
      && fs[dp].nlink <= MAXLINK && fs[x].nlink <= MAXLINK
  {
    assert Dotted(fs, dp) && Counted(fs, dp) && Counted(fs, fs[dp].entries[n]);
  }

  lemma UnlinkReady(fs: Fs, dp: Inum, n: Name)
    requires Inv(fs) && CanUnlink(fs, dp, n)
    ensures Ready(fs, dp, n, fs[dp].entries[n]) && Names(fs, dp, n, fs[dp].entries[n])
  {
    var x := fs[dp].entries[n];
    hide Refs, Counts, Targets, OneName, Dots, Held, Ranked, Rooted;
    EntryLinked(fs, dp, n);
    if fs[x].kind.Dir? {
      EmptyDir(fs, dp, n, x);
      ParentLinks(fs, dp, x);
    } else {
      assert x != dp;
    }
  }

  lemma DetachedLinks(fs: Fs, dp: Inum, n: Name, x: Inum, y: Inum)
    requires Ready(fs, dp, n, x) && y in fs
    ensures var z := Detached(fs, dp, n);
      && z.Keys == fs.Keys && z[y].kind == fs[y].kind && z[y].refs == fs[y].refs
      && z[y].nlink == (if y == x || (y == dp && fs[x].kind.Dir?) then fs[y].nlink - 1 else fs[y].nlink)
      && z[y].entries == if y == dp then fs[y].entries - {n} else fs[y].entries
  {
    ShortFits(fs[dp].nlink - 1);
    ShortFits(fs[x].nlink - 1);
    hide Short;
  }

  predicate LostName(fs: Fs, dp: Inum, n: Name, x: Inum, d: Inum, m: Name)
    requires x in fs
  {
    (d == dp && m == n) || (fs[x].kind.Dir? && d == x)
  }

  lemma DetachedNames(fs: Fs, dp: Inum, n: Name, x: Inum, d: Inum, m: Name, y: Inum)
    requires Ready(fs, dp, n, x)
    ensures Names(Detached(fs, dp, n), d, m, y) <==> Names(fs, d, m, y) && !LostName(fs, dp, n, x, d, m)
  {
    DetachedLinks(fs, dp, n, x, x);
    if d in fs {
      DetachedLinks(fs, dp, n, x, d);
    }
    hide Detached;
  }

  lemma DetachedRefs(fs: Fs, dp: Inum, n: Name, x: Inum, y: Inum)
    requires Ready(fs, dp, n, x)
    ensures Refs(Detached(fs, dp, n), y) ==
      if y == x then Refs(fs, y) - {(dp, n)}
      else if y == dp && fs[x].kind.Dir? then Refs(fs, y) - {(x, DOTDOT)}
      else Refs(fs, y)
    ensures (dp, n) in Refs(fs, x) && (fs[x].kind.Dir? ==> (x, DOTDOT) in Refs(fs, dp))
  {
    var z := Detached(fs, dp, n);
    var gone := if y == x then {(dp, n)} else if y == dp && fs[x].kind.Dir? then {(x, DOTDOT)} else {};
    IsRef(fs, x, dp, n);
    IsRef(fs, dp, x, DOTDOT);
    forall d, m ensures Names(z, d, m, y) <==> (Names(fs, d, m, y) && (d, m) !in gone) || (d, m) in {} {
      DetachedNames(fs, dp, n, x, d, m, y);
    }
    hide Detached, Ready, Names;
    RefsBy(fs, z, y, gone, {});
  }

  lemma DetachedCount(fs: Fs, dp: Inum, n: Name, x: Inum, y: Inum)
    requires Ready(fs, dp, n, x) && y in fs && fs[y].nlink == |Refs(fs, y)| <= MAXLINK
    ensures y in Detached(fs, dp, n) && Detached(fs, dp, n)[y].nlink == |Refs(Detached(fs, dp, n), y)| <= MAXLINK
  {
    assert x != dp && x in fs && dp in fs;
    hide Detached, Refs, Ready;
    DetachedLinks(fs, dp, n, x, y);
    DetachedRefs(fs, dp, n, x, y);
  }

  lemma DetachedKeys(fs: Fs, dp: Inum, n: Name, x: Inum)
    requires Ready(fs, dp, n, x)
    ensures Detached(fs, dp, n).Keys == fs.Keys
  {
    DetachedLinks(fs, dp, n, x, x);
  }

  lemma DetachedCounts(fs: Fs, dp: Inum, n: Name, x: Inum)
    requires Ready(fs, dp, n, x) && Counts(fs)
    ensures Counts(Detached(fs, dp, n))
  {
    DetachedKeys(fs, dp, n, x);
    hide Detached, Refs, Ready;
    forall y ensures Counted(Detached(fs, dp, n), y) {
      assert Counted(fs, y);
      if y in fs {
        DetachedCount(fs, dp, n, x, y);
      }
    }
  }

  lemma DetachedTargets(fs: Fs, dp: Inum, n: Name, x: Inum)
    requires Ready(fs, dp, n, x) && Targets(fs) && Dots(fs)
    ensures Targets(Detached(fs, dp, n)) && Dots(Detached(fs, dp, n))
  {
    var z := Detached(fs, dp, n);
    DetachedLinks(fs, dp, n, x, x);
    hide Detached;
    forall d, m | Linked(z, d) && m in z[d].entries ensures z[d].entries[m] in z {
      DetachedLinks(fs, dp, n, x, d);
    }
    forall d | IsDir(z, d) ensures Dotted(z, d) {
      DetachedLinks(fs, dp, n, x, d);
      assert Dotted(fs, d);
    }
  }

  lemma DetachedLinked(fs: Fs, dp: Inum, n: Name, x: Inum, d: Inum)
    requires Ready(fs, dp, n, x)
    ensures var z := Detached(fs, dp, n);
      && (Linked(z, d) <==> Linked(fs, d) && !(fs[x].kind.Dir? && d == x))
      && (IsDir(z, d) <==> IsDir(fs, d)) && Parent(z, d) == Parent(fs, d)
  {
    DetachedLinks(fs, dp, n, x, x);
    if d in fs {
      DetachedLinks(fs, dp, n, x, d);
    }
    hide Detached;
  }

  lemma DetachedTree(fs: Fs, h: map<Inum, nat>, dp: Inum, n: Name, x: Inum)
    requires Ready(fs, dp, n, x) && OneName(fs) && Rooted(fs) && Ranked(fs, h)
    ensures var z := Detached(fs, dp, n); OneName(z) && Rooted(z) && Ranked(z, h)
  {
    var z := Detached(fs, dp, n);
    forall d ensures (Linked(z, d) <==> Linked(fs, d) && !(fs[x].kind.Dir? && d == x))
      && (IsDir(z, d) <==> IsDir(fs, d)) && Parent(z, d) == Parent(fs, d)
    {
      DetachedLinked(fs, dp, n, x, d);
    }
    forall d, m, y ensures Names(z, d, m, y) <==> Names(fs, d, m, y) && !LostName(fs, dp, n, x, d, m) {
      DetachedNames(fs, dp, n, x, d, m, y);
    }
    forall d | Linked(z, d) && d != ROOT ensures Named(z, d) {
      StillNamed(fs, dp, n, x, d);
    }
    hide Detached, Parent, Linked, Names, Named;
  }

  /** No directory but the removed one loses its name. */
  lemma StillNamed(fs: Fs, dp: Inum, n: Name, x: Inum, d: Inum)
    requires Ready(fs, dp, n, x) && OneName(fs) && Linked(fs, d) && d != ROOT && !(fs[x].kind.Dir? && d == x)
    ensures Named(Detached(fs, dp, n), d)
  {
    assert Named(fs, d);
    var m :| Proper(m) && Names(fs, Parent(fs, d), m, d);
    assert !LostName(fs, dp, n, x, Parent(fs, d), m);
    DetachedNames(fs, dp, n, x, Parent(fs, d), m, d);
    DetachedLinked(fs, dp, n, x, d);
    hide Detached, Parent;
  }

  /** A successful unlink always keeps the invariant. */
  lemma UnlinkKeeps(fs: Fs, dp: Inum, n: Name)
    requires Inv(fs) && CanUnlink(fs, dp, n)
    ensures Inv(Removed(fs, dp, n))
  {
    hide Detached, Counts, Targets, Dots, OneName, Rooted, Ranked;
    var x, z := fs[dp].entries[n], Detached(fs, dp, n);
    var h :| Ranked(fs, h);
    UnlinkReady(fs, dp, n);
    DetachedCounts(fs, dp, n, x);
    DetachedTargets(fs, dp, n, x);
    DetachedTree(fs, h, dp, n, x);
    DetachedLinks(fs, dp, n, x, x);
    forall y | y in z && y != x && z[y].nlink == 0 ensures z[y].refs > 0 {
      DetachedLinks(fs, dp, n, x, y);
    }
    SettledKeeps(z, x);
  }

  // ---- whole runs ----

  datatype Step =
    | Create(dp: Inum, n: Name, kind: Kind, x: Inum)
    | Link(dp: Inum, n: Name, x: Inum)
    | Unlink(dp: Inum, n: Name)
    | Take(x: Inum)
    | Drop(x: Inum)

  predicate Enabled(fs: Fs, t: Step) {
    match t
    case Create(dp, n, kind, x) => CanCreate(fs, dp, n, x)
    case Link(dp, n, x) => CanLink(fs, dp, n, x)
    case Unlink(dp, n) => CanUnlink(fs, dp, n)
    case Take(x) => x in fs
    case Drop(x) => x in fs && fs[x].refs > 0
  }

  function Apply(fs: Fs, t: Step): Fs
    requires Enabled(fs, t)
  {
    match t
    case Create(dp, n, kind, x) => Created(fs, dp, n, kind, x)
    case Link(dp, n, x) => Added(fs, dp, n, x)
    case Unlink(dp, n) => Removed(fs, dp, n)
    case Take(x) => Taken(fs, x)
    case Drop(x) => Dropped(fs, x)
  }

  /** Creates and links go to directories that still have a name, and no count overflows. */
  predicate Sound(fs: Fs, t: Step) {
    match t
    case Create(dp, n, kind, x) => Linked(fs, dp) && (kind.Dir? ==> fs[dp].nlink < MAXLINK)
    case Link(dp, n, x) => Linked(fs, dp) && x in fs && fs[x].nlink < MAXLINK
    case _ => true
  }

  lemma StepIff(fs: Fs, t: Step)
    requires Inv(fs) && Enabled(fs, t)
    ensures Inv(Apply(fs, t)) <==> Sound(fs, t)
  {
    hide Inv, Linked, Created, Added, Removed, Taken, Dropped, CanUnlink;
    match t
    case Create(dp, n, kind, x) => CreateIff(fs, dp, n, kind, x);
    case Link(dp, n, x) => LinkIff(fs, dp, n, x);
    case Unlink(dp, n) => UnlinkKeeps(fs, dp, n);
    case Take(x) => TakeKeeps(fs, x);
    case Drop(x) => DropKeeps(fs, x);
  }

  ghost predicate Valid(fs: Fs, ts: seq<Step>)
    decreases |ts|, 0
  {
    ts == [] || (Valid(fs, ts[..|ts| - 1]) && Enabled(Exec(fs, ts[..|ts| - 1]), ts[|ts| - 1]))
  }

  ghost function Exec(fs: Fs, ts: seq<Step>): Fs
    requires Valid(fs, ts)
    decreases |ts|, 1
  {
    if ts == [] then fs else Apply(Exec(fs, ts[..|ts| - 1]), ts[|ts| - 1])
  }

  ghost predicate AllSound(fs: Fs, ts: seq<Step>)
    requires Valid(fs, ts)
    decreases |ts|
  {
    ts == [] || (AllSound(fs, ts[..|ts| - 1]) && Sound(Exec(fs, ts[..|ts| - 1]), ts[|ts| - 1]))
  }

  /** The invariant holds after every operation of the run. */
  ghost predicate Always(fs: Fs, ts: seq<Step>)
    requires Valid(fs, ts)
    decreases |ts|
  {
    Inv(Exec(fs, ts)) && (ts == [] || Always(fs, ts[..|ts| - 1]))
  }

  /** Link counts and tree hold throughout a run exactly when every create and link of it is
      sound. */
  lemma {:induction false} RunIff(fs: Fs, ts: seq<Step>)
    requires Inv(fs) && Valid(fs, ts)
    ensures Always(fs, ts) <==> AllSound(fs, ts)
  {
    hide Inv, Sound, Enabled, Apply;
    if ts != [] {
      var us := ts[..|ts| - 1];
      RunIff(fs, us);
      if Inv(Exec(fs, us)) {
        StepIff(Exec(fs, us), ts[|ts| - 1]);
      } else {
        assert !Always(fs, us);
      }
    }
  }

  /** The image mkfs makes: a root that is its own parent. */
  function Fresh(): Fs { map[ROOT := Ino(Dir, 1, map[DOT := ROOT, DOTDOT := ROOT], 0)] }

  lemma FreshInv()
    ensures Inv(Fresh())
  {
    var fs := Fresh();
    assert Linked(fs, ROOT) && Dotted(fs, ROOT);
    assert forall d :: IsDir(fs, d) <==> d == ROOT;
    forall d, n, x ensures Names(fs, d, n, x) <==> d == ROOT && n == DOTDOT && x == ROOT {
    }
    RefsBy(map[], fs, ROOT, {}, {(ROOT, DOTDOT)});
    assert Refs(map[], ROOT) == {};
    assert Refs(fs, ROOT) == {(ROOT, DOTDOT)};
    hide Names, Fresh;
    assert forall x :: Counted(fs, x);
    assert Ranked(fs, map[ROOT := 0]);
  }

  lemma Extend(fs: Fs, ts: seq<Step>, t: Step)
    requires Valid(fs, ts) && Enabled(Exec(fs, ts), t)
    ensures Valid(fs, ts + [t]) && Exec(fs, ts + [t]) == Apply(Exec(fs, ts), t)
  {
    assert (ts + [t])[..|ts|] == ts;
  }

  /** Unsound runs exist: make a directory and keep it open, remove it, create a file in it. */
  lemma UnsoundRun() returns (ts: seq<Step>)
    ensures Inv(Fresh()) && Valid(Fresh(), ts) && !Inv(Exec(Fresh(), ts))
  {
    FreshInv();
    hide Inv;
    var fs, a, b := Fresh(), [97], [98];
    var t0, t1, t2 := Create(ROOT, a, Dir, 2), Unlink(ROOT, a), Create(2, b, File, 3);
    Extend(fs, [], t0);
    StepIff(fs, t0);
    var fs1 := Exec(fs, [] + [t0]);
    assert fs1[2].entries.Keys == {DOT, DOTDOT};
    Extend(fs, [] + [t0], t1);
    StepIff(fs1, t1);
    var fs2 := Exec(fs, [] + [t0] + [t1]);
    assert fs2[2].nlink == 0 && !Linked(fs2, 2);
    Extend(fs, [] + [t0] + [t1], t2);
    StepIff(fs2, t2);
    ts := [] + [t0] + [t1] + [t2];
  }
}
