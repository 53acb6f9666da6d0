/** Two-level page tables in physical memory, seen as one flat partial map, and the frames a
    page table owns.  Pages are 1024 words; an entry is a frame number times 4096 plus flags. */
module PageTable {
  import opened Options

  type Page = seq<nat>
  type Memory = map<nat, Page>

  const NENTRIES: nat := 1024
  const VPAGES: nat := 0x100000   // pages of the 4 GB address space
  const UPAGES: nat := 0x80000    // pages below KERNBASE

  // ---- entries ----

  predicate Present(w: nat) { w % 2 == 1 }
  function FrameNo(w: nat): nat { w / 4096 }
  function Flags(w: nat): nat { w % 4096 }

  /** pa | perm | PTE_P */
  function Pte(frame: nat, perm: nat): nat {
    frame * 4096 + if perm % 2 == 1 then perm else perm + 1
  }

  lemma PteParts(frame: nat, perm: nat)
    requires perm < 4096
    ensures Present(Pte(frame, perm)) && FrameNo(Pte(frame, perm)) == frame
    ensures Flags(Pte(frame, perm)) == if perm % 2 == 1 then perm else perm + 1
  {
  }

  function Zero(): (p: Page)
    ensures |p| == NENTRIES && forall i :: 0 <= i < NENTRIES ==> p[i] == 0
  {
    seq(NENTRIES, _ => 0)
  }

  function Put(p: Page, i: nat, w: nat): Page {
    if i < |p| then p[..i] + [w] + p[i + 1..] else p
  }

  // ---- the tree and its flat meaning ----

  function Word(m: Memory, f: nat, i: nat): nat {
    if f in m && i < |m[f]| then m[f][i] else 0
  }

  /** The table entry of virtual page u; zero where there is no table. */
  function Entry(m: Memory, d: nat, u: nat): nat {
    if Present(Word(m, d, u / NENTRIES)) then Word(m, FrameNo(Word(m, d, u / NENTRIES)), u % NENTRIES) else 0
  }

  /** What the directory d maps virtual page u to. */
  function Lookup(m: Memory, d: nat, u: nat): Option<nat> {
    if Present(Entry(m, d, u)) then Some(Entry(m, d, u)) else None
  }

  /** The frames of a page table: the directory, its tables, and the user pages. */
  datatype Role = Dir | Tab(i: nat) | Usr(u: nat)

  predicate Has(m: Memory, d: nat, r: Role, f: nat) {
    match r
    case Dir => f == d
    case Tab(i) => i < NENTRIES && Present(Word(m, d, i)) && FrameNo(Word(m, d, i)) == f
    case Usr(u) => u < UPAGES && Present(Entry(m, d, u)) && FrameNo(Entry(m, d, u)) == f
  }

  ghost predicate Owns(m: Memory, d: nat, f: nat) {
    exists r :: Has(m, d, r, f)
  }

  /** Frames of the table lie in memory, are not free, and each has one role. */
  ghost predicate Inv(m: Memory, free: seq<nat>, d: nat) {
    && (forall r, f :: Has(m, d, r, f) ==> f in m && |m[f]| == NENTRIES && f !in free)
    && (forall r, s, f :: Has(m, d, r, f) && Has(m, d, s, f) ==> r == s)
  }

  /** The same flat map. */
  ghost predicate SameView(m: Memory, z: Memory, d: nat) {
    forall u: nat :: u < VPAGES ==> Entry(z, d, u) == Entry(m, d, u)
  }

  // ---- writing somewhere else ----

  function Over(m: Memory, g: nat, p: Page): Memory { m[g := p] }

  ghost predicate OffTree(m: Memory, d: nat, g: nat) {
    g != d && forall i :: !Has(m, d, Tab(i), g)
  }

  lemma ElsewhereEntry(m: Memory, d: nat, g: nat, p: Page, u: nat)
    requires OffTree(m, d, g)
    ensures u < VPAGES ==> Entry(Over(m, g, p), d, u) == Entry(m, d, u)
  {
    assert !Has(m, d, Tab(u / NENTRIES), g);
  }

  lemma ElsewhereHas(m: Memory, d: nat, g: nat, p: Page, r: Role, f: nat)
    requires OffTree(m, d, g)
    ensures Has(Over(m, g, p), d, r, f) <==> Has(m, d, r, f)
  {
    if r.Usr? && r.u < UPAGES {
      ElsewhereEntry(m, d, g, p, r.u);
    }
  }

  lemma NotOnTree(m: Memory, free: seq<nat>, d: nat, g: nat)
    requires Inv(m, free, d) && (g in free || !Owns(m, d, g) || exists u :: Has(m, d, Usr(u), g))
    ensures OffTree(m, d, g)
  {
    assert Has(m, d, Dir, d);
    forall i ensures !Has(m, d, Tab(i), g) {
    }
  }

  /** A page that is no directory or table of d may be overwritten. */
  lemma ElsewhereInv(m: Memory, free: seq<nat>, d: nat, g: nat, p: Page)
    requires Inv(m, free, d) && OffTree(m, d, g) && |p| == NENTRIES
    ensures Inv(Over(m, g, p), free, d) && SameView(m, Over(m, g, p), d)
    ensures forall r, f :: Has(Over(m, g, p), d, r, f) <==> Has(m, d, r, f)
  {
    forall u: nat | u < VPAGES ensures Entry(Over(m, g, p), d, u) == Entry(m, d, u) {
      ElsewhereEntry(m, d, g, p, u);
    }
    forall r, f ensures Has(Over(m, g, p), d, r, f) <==> Has(m, d, r, f) {
      ElsewhereHas(m, d, g, p, r, f);
    }
    hide Has, Entry;
  }

  // ---- a new table ----

  function WithTable(m: Memory, d: nat, i: nat, t: nat): Memory
    requires d in m && i < |m[d]|
  {
    m[t := Zero()][d := Put(m[d], i, Pte(t, 6))]
  }

  lemma NewTableWord(m: Memory, d: nat, i: nat, t: nat, j: nat)
    requires d in m && i < |m[d]| && t != d
    ensures Word(WithTable(m, d, i, t), d, j) == if j == i then Pte(t, 6) else Word(m, d, j)
  {
  }

  /** It is empty, so no page gets mapped or unmapped. */
  lemma NewTableEntry(m: Memory, d: nat, i: nat, t: nat, u: nat)
    requires d in m && |m[d]| == NENTRIES && i < NENTRIES && !Present(Word(m, d, i)) && OffTree(m, d, t)
    requires !Has(m, d, Tab(u / NENTRIES), d) && u < VPAGES
    ensures Entry(WithTable(m, d, i, t), d, u) == Entry(m, d, u)
  {
    var j := u / NENTRIES;
    NewTableWord(m, d, i, t, j);
    PteParts(t, 6);
    assert !Has(m, d, Tab(j), t);
    hide Present, FrameNo, Pte;
  }

  lemma NewTableHas(m: Memory, d: nat, i: nat, t: nat, r: Role, f: nat)
    requires d in m && |m[d]| == NENTRIES && i < NENTRIES && !Present(Word(m, d, i)) && OffTree(m, d, t)
    requires forall j :: !Has(m, d, Tab(j), d)
    ensures Has(WithTable(m, d, i, t), d, r, f) <==> Has(m, d, r, f) || (r == Tab(i) && f == t)
  {
    match r
    case Dir =>
    case Tab(j) =>
      NewTableWord(m, d, i, t, j);
      PteParts(t, 6);
    case Usr(u) =>
      if u < UPAGES {
        assert !Has(m, d, Tab(u / NENTRIES), d);
        NewTableEntry(m, d, i, t, u);
      }
  }

  lemma NewTableInv(m: Memory, free: seq<nat>, d: nat, i: nat, t: nat)
    requires Inv(m, [t] + free, d) && t in m && t !in free && i < NENTRIES && !Present(Word(m, d, i))
    ensures d in m && |m[d]| == NENTRIES
    ensures Inv(WithTable(m, d, i, t), free, d) && SameView(m, WithTable(m, d, i, t), d)
    ensures forall r, f :: Has(WithTable(m, d, i, t), d, r, f) <==> Has(m, d, r, f) || (r == Tab(i) && f == t)
  {
    assert Has(m, d, Dir, d) && t in [t] + free;
    NotOnTree(m, [t] + free, d, t);
    var z := WithTable(m, d, i, t);
    forall u: nat | u < VPAGES ensures Entry(z, d, u) == Entry(m, d, u) {
      NewTableEntry(m, d, i, t, u);
    }
    forall r, f ensures Has(z, d, r, f) <==> Has(m, d, r, f) || (r == Tab(i) && f == t) {
      NewTableHas(m, d, i, t, r, f);
    }
    hide Has, Entry;
  }

  // ---- writing an entry ----

  function WithEntry(m: Memory, t: nat, u: nat, w: nat): Memory {
    if t in m then m[t := Put(m[t], u % NENTRIES, w)] else m
  }

  lemma SetEntry(m: Memory, free: seq<nat>, d: nat, t: nat, u: nat, w: nat, v: nat)
    requires Inv(m, free, d) && u < VPAGES && v < VPAGES && Has(m, d, Tab(u / NENTRIES), t)
    ensures Entry(WithEntry(m, t, u, w), d, v) == if v == u then w else Entry(m, d, v)
  {
    assert Has(m, d, Dir, d) && t != d && t in m && |m[t]| == NENTRIES;
    var a := Word(m, d, v / NENTRIES);
    if Present(a) {
      assert Has(m, d, Tab(v / NENTRIES), FrameNo(a));
    }
  }

  lemma SetHas(m: Memory, free: seq<nat>, d: nat, t: nat, u: nat, w: nat, r: Role, f: nat)
    requires Inv(m, free, d) && u < VPAGES && Has(m, d, Tab(u / NENTRIES), t)
    ensures Has(WithEntry(m, t, u, w), d, r, f) <==>
      if r == Usr(u) then u < UPAGES && Present(w) && FrameNo(w) == f else Has(m, d, r, f)
  {
    assert Has(m, d, Dir, d) && t != d;
    if r.Usr? && r.u < UPAGES {
      SetEntry(m, free, d, t, u, w, r.u);
    }
  }

  /** Mapping a page: a user page takes a frame the table does not have. */
  lemma MapInv(m: Memory, free: seq<nat>, d: nat, t: nat, u: nat, w: nat)
    requires Inv(m, free, d) && u < VPAGES && Has(m, d, Tab(u / NENTRIES), t) && Present(w)
    requires u < UPAGES ==> var f := FrameNo(w); f in m && |m[f]| == NENTRIES && f !in free && !Owns(m, d, f)
    ensures Inv(WithEntry(m, t, u, w), free, d)
    ensures forall r, f :: Has(WithEntry(m, t, u, w), d, r, f) <==>
      if r == Usr(u) then u < UPAGES && FrameNo(w) == f else Has(m, d, r, f)
  {
    var z := WithEntry(m, t, u, w);
    forall r, f ensures Has(z, d, r, f) <==>
      if r == Usr(u) then u < UPAGES && FrameNo(w) == f else Has(m, d, r, f)
    {
      SetHas(m, free, d, t, u, w, r, f);
    }
    hide Has;
  }

  /** Unmapping a user page: its frame is the table's no longer. */
  lemma ClearInv(m: Memory, free: seq<nat>, d: nat, t: nat, u: nat, g: nat)
    requires Inv(m, free, d) && u < UPAGES && Has(m, d, Tab(u / NENTRIES), t) && Has(m, d, Usr(u), g)
    ensures Inv(WithEntry(m, t, u, 0), [g] + free, d) && !Owns(WithEntry(m, t, u, 0), d, g)
    ensures forall r, f :: Has(WithEntry(m, t, u, 0), d, r, f) <==> r != Usr(u) && Has(m, d, r, f)
  {
    var z := WithEntry(m, t, u, 0);
    forall r, f ensures Has(z, d, r, f) <==> r != Usr(u) && Has(m, d, r, f) {
      SetHas(m, free, d, t, u, 0, r, f);
    }
    hide Has;
  }

  // ---- what an operation on a table may do ----

  /** Frames in hand: taken from the free list, not yet given to the table. */
  ghost predicate Spare(m: Memory, free: seq<nat>, held: set<nat>, d: nat) {
    forall g :: g in held ==> g in m && |m[g]| == NENTRIES && g !in free && !Owns(m, d, g)
  }

  ghost predicate State(m: Memory, free: seq<nat>, held: set<nat>, d: nat) {
    Inv(m, free, d) && Spare(m, free, held, d)
  }

  ghost predicate InPool(m: Memory, free: seq<nat>, held: set<nat>, d: nat, g: nat) {
    g in free || g in held || Owns(m, d, g)
  }

  /** Frames only move among the free list, the hand and the table; none is lost or gained,
      and nobody else's page changes. */
  ghost predicate Moves(m: Memory, free: seq<nat>, held: set<nat>, z: Memory, left: seq<nat>, kept: set<nat>, d: nat) {
    && z.Keys == m.Keys
    && (forall g :: InPool(z, left, kept, d, g) <==> InPool(m, free, held, d, g))
    && (forall g :: g in m && !InPool(m, free, held, d, g) ==> z[g] == m[g])
  }

  lemma MovesOn(m: Memory, free: seq<nat>, held: set<nat>, y: Memory, mid: seq<nat>, some_: set<nat>,
                z: Memory, left: seq<nat>, kept: set<nat>, d: nat)
    requires Moves(m, free, held, y, mid, some_, d) && Moves(y, mid, some_, z, left, kept, d)
    ensures Moves(m, free, held, z, left, kept, d)
  {
    hide InPool;
  }

  /** User pages mapped before and after by the same frame keep their contents. */
  ghost predicate UserSame(m: Memory, z: Memory, d: nat) {
    forall u, g :: Has(m, d, Usr(u), g) && Has(z, d, Usr(u), g) && g in m && g in z ==> z[g] == m[g]
  }

  ghost predicate HeldSame(m: Memory, z: Memory, held: set<nat>) {
    forall g :: g in held && g in m && g in z ==> z[g] == m[g]
  }

  /** A step that leaves the table's frames and the free list as they are, except that the
      frames of gone have gone from the list to the table. */
  lemma TableStep(m: Memory, free: seq<nat>, held: set<nat>, d: nat, i: nat, t: nat)
    requires State(m, [t] + free, held, d) && t in m && t !in free && i < NENTRIES && !Present(Word(m, d, i))
    ensures d in m && |m[d]| == NENTRIES
    ensures var z := WithTable(m, d, i, t);
      && State(z, free, held, d) && SameView(m, z, d) && Has(z, d, Tab(i), t)
      && Moves(m, [t] + free, held, z, free, held, d) && UserSame(m, z, d) && HeldSame(m, z, held)
  {
    NewTableInv(m, free, d, i, t);
    assert Has(m, d, Dir, d) && t in [t] + free && d in m;
    var z := WithTable(m, d, i, t);
    hide Has, Word;
    assert Has(z, d, Tab(i), t);
    forall g ensures Owns(z, d, g) <==> Owns(m, d, g) || g == t {
      if Owns(m, d, g) {
        var r :| Has(m, d, r, g);
        assert Has(z, d, r, g);
      }
    }
  }

  lemma MapStep(m: Memory, free: seq<nat>, held: set<nat>, d: nat, t: nat, u: nat, f: nat, perm: nat)
    requires State(m, free, held, d) && u < VPAGES && Has(m, d, Tab(u / NENTRIES), t) && perm < 4096
    requires !Present(Entry(m, d, u)) && (u < UPAGES ==> f in held)
    ensures var z, kept := WithEntry(m, t, u, Pte(f, perm)), if u < UPAGES then held - {f} else held;
      && State(z, free, kept, d) && Moves(m, free, held, z, free, kept, d) && UserSame(m, z, d) && HeldSame(m, z, held)
      && forall v: nat :: v < VPAGES ==> Entry(z, d, v) == if v == u then Pte(f, perm) else Entry(m, d, v)
  {
    var w := Pte(f, perm);
    var z, kept := WithEntry(m, t, u, w), if u < UPAGES then held - {f} else held;
    PteParts(f, perm);
    MapInv(m, free, d, t, u, w);
    forall v: nat | v < VPAGES ensures Entry(z, d, v) == if v == u then w else Entry(m, d, v) {
      SetEntry(m, free, d, t, u, w, v);
    }
    assert forall g :: !Has(m, d, Usr(u), g);
    assert t in m && Owns(m, d, t);
    hide Has, Entry, Pte;
    forall g ensures Owns(z, d, g) <==> Owns(m, d, g) || (u < UPAGES && g == f) {
      if Owns(m, d, g) {
        var r :| Has(m, d, r, g);
        assert Has(z, d, r, g);
      }
      if u < UPAGES && g == f {
        assert Has(z, d, Usr(u), f);
      }
    }
  }

  lemma ClearStep(m: Memory, free: seq<nat>, held: set<nat>, d: nat, t: nat, u: nat, g: nat, p: Page)
    requires State(m, free, held, d) && u < UPAGES && Has(m, d, Tab(u / NENTRIES), t) && Has(m, d, Usr(u), g) && |p| == NENTRIES
    ensures var z := WithEntry(Over(m, g, p), t, u, 0);
      && State(z, [g] + free, held, d) && Moves(m, free, held, z, [g] + free, held, d) && UserSame(m, z, d) && HeldSame(m, z, held)
      && forall v: nat :: v < VPAGES ==> Entry(z, d, v) == if v == u then 0 else Entry(m, d, v)
  {
    var y := WithEntry(m, t, u, 0);
    var z := WithEntry(Over(m, g, p), t, u, 0);
    assert Has(m, d, Usr(u), g) && Has(m, d, Tab(u / NENTRIES), t) && t != g && t in m && g in m;
    assert z == Over(y, g, p);
    ClearInv(m, free, d, t, u, g);
    assert Owns(m, d, t) && Owns(m, d, g);
    forall v: nat | v < VPAGES ensures Entry(y, d, v) == if v == u then 0 else Entry(m, d, v) {
      SetEntry(m, free, d, t, u, 0, v);
    }
    NotOnTree(y, [g] + free, d, g);
    ElsewhereInv(y, [g] + free, d, g, p);
    hide Has, Entry, Over, WithEntry;
    forall x ensures Owns(z, d, x) <==> Owns(m, d, x) && x != g {
      if Owns(m, d, x) && x != g {
        var r :| Has(m, d, r, x);
        assert Has(y, d, r, x);
        assert Has(z, d, r, x);
      }
    }
    StepFrame(m, t, u, g, p);
  }

  lemma StepFrame(m: Memory, t: nat, u: nat, g: nat, p: Page)
    requires t in m && g in m && t != g
    ensures var z := WithEntry(Over(m, g, p), t, u, 0); z.Keys == m.Keys && forall x :: x in m && x != t && x != g ==> z[x] == m[x]
  {
  }

  /** kalloc takes the first free frame in hand. */
  lemma TakeStep(m: Memory, free: seq<nat>, held: set<nat>, d: nat, f: nat)
    requires State(m, [f] + free, held, d) && f in m && |m[f]| == NENTRIES && f !in free
    ensures State(m, free, held + {f}, d) && Moves(m, [f] + free, held, m, free, held + {f}, d)
  {
    assert f in [f] + free;
    assert forall g :: g in [f] + free <==> g == f || g in free;
    hide Has;
  }

  /** A frame in hand may be written. */
  lemma HeldStep(m: Memory, free: seq<nat>, held: set<nat>, d: nat, f: nat, p: Page)
    requires State(m, free, held, d) && f in held && |p| == NENTRIES
    ensures State(Over(m, f, p), free, held, d) && Moves(m, free, held, Over(m, f, p), free, held, d)
    ensures SameView(m, Over(m, f, p), d) && UserSame(m, Over(m, f, p), d) && HeldSame(m, Over(m, f, p), held - {f})
  {
    NotOnTree(m, free, d, f);
    ElsewhereInv(m, free, d, f, p);
    var z := Over(m, f, p);
    hide Has, Entry;
    SameOwns(m, z, d);
  }

  lemma SameOwns(m: Memory, z: Memory, d: nat)
    requires forall r, g :: Has(z, d, r, g) <==> Has(m, d, r, g)
    ensures forall g :: Owns(z, d, g) <==> Owns(m, d, g)
  {
    hide Has;
    forall g ensures Owns(z, d, g) <==> Owns(m, d, g) {
      if Owns(m, d, g) {
        var r :| Has(m, d, r, g);
        assert Has(z, d, r, g);
      }
    }
  }

  /** kfree of a frame in hand. */
  lemma GiveStep(m: Memory, free: seq<nat>, held: set<nat>, d: nat, f: nat, p: Page)
    requires State(m, free, held, d) && f in held && |p| == NENTRIES
    ensures State(Over(m, f, p), [f] + free, held - {f}, d)
    ensures Moves(m, free, held, Over(m, f, p), [f] + free, held - {f}, d)
    ensures SameView(m, Over(m, f, p), d) && UserSame(m, Over(m, f, p), d)
  {
    HeldStep(m, free, held, d, f, p);
    assert forall g :: g in [f] + free <==> g == f || g in free;
    var z := Over(m, f, p);
    assert z.Keys == m.Keys;
    hide Has, Over;
    assert !Owns(z, d, f);
  }
}
