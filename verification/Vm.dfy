/** The page-table routines of vm.c over the page allocator. */
module Vm {
  import opened Options
  import opened PageTable
  import opened Kalloc

  datatype MapResult = Mapped | NoMemory | Remap

  const USER_PERM: nat := 6   // PTE_W|PTE_U

  /** The directory entries that have a table. */
  ghost function Tabs(m: Memory, d: nat): set<nat> {
    set i: nat | i < NENTRIES && Present(Word(m, d, i))
  }

  /** From (m, free) to (z, left): at most the table of page u was added, from a free frame, and
      n more frames were taken. */
  ghost predicate Spent(m: Memory, free: seq<nat>, z: Memory, left: seq<nat>, d: nat, u: nat, added: bool, n: nat) {
    && Tabs(z, d) == Tabs(m, d) + (if added then {u / NENTRIES} else {})
    && |left| + |Tabs(z, d)| + n == |free| + |Tabs(m, d)|
  }

  /** walkpgdir: the table that holds the entry of page u, or 0.  The flat map stays as it is
      whether or not a table is added. */
  method Walk(k: PhysMem, d: nat, u: nat, alloc: bool, ghost held: set<nat>) returns (t: nat)
    requires k.Valid() && State(k.pages, k.free, held, d) && u < VPAGES
    modifies k
    ensures k.Valid() && State(k.pages, k.free, held, d)
    ensures t == 0 <==> !Present(Word(old(k.pages), d, u / NENTRIES)) && (!alloc || old(k.free) == [])
    ensures t != 0 ==> Has(k.pages, d, Tab(u / NENTRIES), t)
    ensures !alloc || Present(Word(old(k.pages), d, u / NENTRIES)) || t == 0 ==> k.pages == old(k.pages) && k.free == old(k.free)
    ensures t != 0 && !Present(Word(old(k.pages), d, u / NENTRIES)) ==> TableMade(old(k.pages), k.pages, d, u / NENTRIES, t)
    ensures SameView(old(k.pages), k.pages, d)
    ensures Spent(old(k.pages), old(k.free), k.pages, k.free, d, u, t != 0, 0)
    ensures Moves(old(k.pages), old(k.free), held, k.pages, k.free, held, d)
    ensures UserSame(old(k.pages), k.pages, d) && HeldSame(old(k.pages), k.pages, held)
  {
    var i := u / NENTRIES;
    assert Has(k.pages, d, Dir, d);
    var pde := k.pages[d][i];
    if Present(pde) {
      assert Has(k.pages, d, Tab(i), FrameNo(pde)) && i in Tabs(k.pages, d);
      return FrameNo(pde);
    }
    if !alloc {
      return 0;
    }
    var v := k.Alloc();
    if v == 0 {
      return 0;
    }
    t := (v - KERNBASE) / PGSIZE;
    TableStep(k.pages, k.free, held, d, i, t);
    hide State, Moves, UserSame, HeldSame, SameView;
    assert d != t && d !in k.free;
    k.Write(t, Zero());
    k.Write(d, Put(k.pages[d], i, Pte(t, USER_PERM)));
    assert k.pages == WithTable(old(k.pages), d, i, t);
    TableAdded(old(k.pages), d, i, t);
    TableIs(old(k.pages), d, i, t);
  }

  /** Entry i of the directory has come to name t, an empty table that lets every access through:
      PTE_P, PTE_W and PTE_U. */
  ghost predicate TableMade(m: Memory, z: Memory, d: nat, i: nat, t: nat) {
    && t in z && |z[t]| == NENTRIES && (forall j :: 0 <= j < NENTRIES ==> z[t][j] == 0)
    && forall j: nat :: Word(z, d, j) == if j == i then t * 4096 + 7 else Word(m, d, j)
  }

  lemma TableIs(m: Memory, d: nat, i: nat, t: nat)
    requires d in m && i < |m[d]| && t != d
    ensures TableMade(m, WithTable(m, d, i, t), d, i, t)
  {
    forall j: nat ensures Word(WithTable(m, d, i, t), d, j) == if j == i then t * 4096 + 7 else Word(m, d, j) {
      NewTableWord(m, d, i, t, j);
    }
  }

  lemma TableAdded(m: Memory, d: nat, i: nat, t: nat)
    requires d in m && |m[d]| == NENTRIES && t != d && i < NENTRIES
    ensures Tabs(WithTable(m, d, i, t), d) == Tabs(m, d) + {i}
  {
    PteParts(t, 6);
    hide Present, Pte;
    forall j: nat | j < NENTRIES ensures j in Tabs(WithTable(m, d, i, t), d) <==> j in Tabs(m, d) + {i} {
      NewTableWord(m, d, i, t, j);
    }
  }

  lemma SameDir(m: Memory, z: Memory, d: nat)
    requires d in m && d in z && z[d] == m[d]
    ensures Tabs(z, d) == Tabs(m, d)
  {
    assert forall i: nat :: Word(z, d, i) == Word(m, d, i);
    hide Word, Present;
  }

  /** One turn of mappages. */
  method MapPage(k: PhysMem, d: nat, u: nat, f: nat, perm: nat, ghost held: set<nat>) returns (r: MapResult)
    requires k.Valid() && State(k.pages, k.free, held, d) && u < VPAGES && perm < 4096 && (u < UPAGES ==> f in held)
    modifies k
    ensures r.Remap? <==> Present(Entry(old(k.pages), d, u))
    ensures r.NoMemory? <==> !Present(Word(old(k.pages), d, u / NENTRIES)) && old(k.free) == []
    ensures !r.Mapped? ==> k.pages == old(k.pages) && k.free == old(k.free)
    ensures r.Mapped? ==> forall v: nat :: v < VPAGES ==> Entry(k.pages, d, v) == if v == u then Pte(f, perm) else Entry(old(k.pages), d, v)
    ensures k.Valid()
    ensures var kept := if r.Mapped? && u < UPAGES then held - {f} else held;
      State(k.pages, k.free, kept, d) && Moves(old(k.pages), old(k.free), held, k.pages, k.free, kept, d)
    ensures UserSame(old(k.pages), k.pages, d) && HeldSame(old(k.pages), k.pages, held)
    ensures Spent(old(k.pages), old(k.free), k.pages, k.free, d, u, r.Mapped?, 0)
  {
    hide TableMade, Moves, UserSame, HeldSame;
    var t := Walk(k, d, u, true, held);
    if t == 0 {
      return NoMemory;
    }
    assert t in k.pages && |k.pages[t]| == NENTRIES && t !in k.free;
    assert k.pages[t][u % NENTRIES] == Entry(k.pages, d, u);
    if Present(k.pages[t][u % NENTRIES]) {
      return Remap;
    }
    ghost var m, free := k.pages, k.free;
    assert Has(m, d, Dir, d) && t != d;
    hide Entry, Pte, State, Moves, UserSame, HeldSame;
    MapStep(m, free, held, d, t, u, f, perm);
    k.Write(t, Put(k.pages[t], u % NENTRIES, Pte(f, perm)));
    assert k.pages == WithEntry(m, t, u, Pte(f, perm));
    SameDir(m, k.pages, d);
    ghost var kept := if u < UPAGES then held - {f} else held;
    Joined(old(k.pages), old(k.free), held, m, free, held, k.pages, k.free, kept, d);
    return Mapped;
  }

  /** Two steps, of which the first keeps the flat map. */
  lemma Joined(m: Memory, free: seq<nat>, held: set<nat>, y: Memory, mid: seq<nat>, some_: set<nat>,
               z: Memory, left: seq<nat>, kept: set<nat>, d: nat)
    requires Moves(m, free, held, y, mid, some_, d) && Moves(y, mid, some_, z, left, kept, d)
    requires UserSame(m, y, d) && UserSame(y, z, d) && SameView(m, y, d)
    requires HeldSame(m, y, held) && HeldSame(y, z, held)
    ensures Moves(m, free, held, z, left, kept, d) && UserSame(m, z, d) && HeldSame(m, z, held)
  {
    MovesOn(m, free, held, y, mid, some_, z, left, kept, d);
    forall u, g | Has(m, d, Usr(u), g) && Has(z, d, Usr(u), g) && g in m && g in z ensures z[g] == m[g] {
      assert Has(y, d, Usr(u), g);
    }
  }

  // ---- deallocuvm ----

  /** PGROUNDUP, in pages: as few as hold so many bytes. */
  function PageUp(bytes: nat): (n: nat)
    ensures bytes <= n * PGSIZE < bytes + PGSIZE
  {
    (bytes + PGSIZE - 1) / PGSIZE
  }

  predicate Within(v: nat, oldsz: nat, newsz: nat) { PageUp(newsz) <= v && v * PGSIZE < oldsz }

  /** Pages of z are those of m, some of them gone. */
  ghost predicate Thins(m: Memory, z: Memory, d: nat) {
    forall v: nat :: v < VPAGES ==> Lookup(z, d, v) == None || Lookup(z, d, v) == Lookup(m, d, v)
  }

  lemma ThinSame(m: Memory, y: Memory, z: Memory, d: nat)
    requires UserSame(m, y, d) && UserSame(y, z, d) && Thins(y, z, d) && y.Keys == m.Keys
    ensures UserSame(m, z, d)
  {
    forall u, g | Has(m, d, Usr(u), g) && Has(z, d, Usr(u), g) && g in m && g in z ensures z[g] == m[g] {
      assert Lookup(z, d, u) == Lookup(y, d, u);
      assert Has(y, d, Usr(u), g);
    }
  }

  /** One turn of the loop: a missing table is reported, a page that is there is freed. */
  method UnmapPage(k: PhysMem, d: nat, u: nat, ghost held: set<nat>) returns (found: bool)
    requires k.Valid() && State(k.pages, k.free, held, d) && u < UPAGES
    modifies k
    ensures k.Valid() && State(k.pages, k.free, held, d)
    ensures found <==> Present(Word(old(k.pages), d, u / NENTRIES))
    ensures forall v: nat :: v < VPAGES ==> Lookup(k.pages, d, v) == if v == u then None else Lookup(old(k.pages), d, v)
    ensures Moves(old(k.pages), old(k.free), held, k.pages, k.free, held, d)
    ensures UserSame(old(k.pages), k.pages, d) && HeldSame(old(k.pages), k.pages, held)
    ensures forall g :: g in old(k.free) || Has(old(k.pages), d, Usr(u), g) ==> g in k.free
  {
    hide Spent, Tabs;
    var t := Walk(k, d, u, false, held);
    if t == 0 {
      return false;
    }
    ghost var m, free := k.pages, k.free;
    assert t in m && |m[t]| == NENTRIES && t !in free;
    var pte := k.pages[t][u % NENTRIES];
    assert pte == Entry(m, d, u);
    if Present(pte) {
      var g := FrameNo(pte);
      assert Has(m, d, Usr(u), g) && Has(m, d, Tab(u / NENTRIES), t) && g != t;
      k.FreeFrame(g);
      ghost var p: Page :| |p| == NENTRIES && k.pages == Over(m, g, p);
      ClearStep(m, free, held, d, t, u, g, p);
      assert k.pages[t] == m[t];
      k.Write(t, Put(k.pages[t], u % NENTRIES, 0));
      assert k.pages == WithEntry(Over(m, g, p), t, u, 0);
    }
    return true;
  }

  /** Pages without a table are not mapped. */
  lemma Skipped(m: Memory, d: nat, u: nat, v: nat)
    requires !Present(Word(m, d, u / NENTRIES)) && u <= v < (u / NENTRIES + 1) * NENTRIES
    ensures Lookup(m, d, v) == None
  {
    assert v / NENTRIES == u / NENTRIES;
  }

  /** The frames of the pages of [newsz, oldsz) before u are free. */
  ghost predicate PagesFreed(m: Memory, d: nat, oldsz: nat, newsz: nat, u: nat, left: seq<nat>) {
    forall v: nat, g :: Has(m, d, Usr(v), g) && Within(v, oldsz, newsz) && v < u ==> g in left
  }

  lemma FreedOn(m: Memory, y: Memory, d: nat, oldsz: nat, newsz: nat, u: nat, next: nat, mid: seq<nat>, left: seq<nat>)
    requires PagesFreed(m, d, oldsz, newsz, u, mid) && u < next
    requires forall g :: g in mid || Has(y, d, Usr(u), g) ==> g in left
    requires forall v: nat :: u < v < next ==> Lookup(y, d, v) == None
    requires forall v: nat :: u <= v < VPAGES ==> Lookup(y, d, v) == Lookup(m, d, v)
    ensures PagesFreed(m, d, oldsz, newsz, next, left)
  {
    forall v: nat, g | Has(m, d, Usr(v), g) && Within(v, oldsz, newsz) && v < next ensures g in left {
      if v >= u {
        assert Lookup(y, d, v) == Lookup(m, d, v);
        assert Has(y, d, Usr(v), g);
      }
    }
  }

  /** deallocuvm: exactly the pages of [newsz, oldsz) go, in spite of the jump over missing
      tables, and their frames are free. */
  method DeallocUvm(k: PhysMem, d: nat, oldsz: nat, newsz: nat, ghost held: set<nat>) returns (r: nat)
    requires k.Valid() && State(k.pages, k.free, held, d) && oldsz <= KERNBASE
    modifies k
    ensures k.Valid() && State(k.pages, k.free, held, d)
    ensures r == if newsz >= oldsz then oldsz else newsz
    ensures forall v: nat :: v < VPAGES ==>
      Lookup(k.pages, d, v) == if newsz < oldsz && Within(v, oldsz, newsz) then None else Lookup(old(k.pages), d, v)
    ensures newsz < oldsz ==> PagesFreed(old(k.pages), d, oldsz, newsz, PageUp(oldsz), k.free)
    ensures Moves(old(k.pages), old(k.free), held, k.pages, k.free, held, d)
    ensures UserSame(old(k.pages), k.pages, d) && HeldSame(old(k.pages), k.pages, held)
  {
    if newsz >= oldsz {
      return oldsz;
    }
    var u := PageUp(newsz);
    ghost var m, free := k.pages, k.free;
    while u * PGSIZE < oldsz
      invariant k.Valid() && State(k.pages, k.free, held, d) && PageUp(newsz) <= u
      invariant forall v: nat :: v < VPAGES ==>
        Lookup(k.pages, d, v) == if Within(v, oldsz, newsz) && v < u then None else Lookup(m, d, v)
      invariant Moves(m, free, held, k.pages, k.free, held, d)
      invariant UserSame(m, k.pages, d) && HeldSame(m, k.pages, held)
      invariant PagesFreed(m, d, oldsz, newsz, u, k.free)
      decreases oldsz - u * PGSIZE
    {
      hide State, Moves, UserSame, HeldSame, Lookup, PagesFreed;
      ghost var y, mid := k.pages, k.free;
      var found := UnmapPage(k, d, u, held);
      assert Thins(y, k.pages, d);
      MovesOn(m, free, held, y, mid, held, k.pages, k.free, held, d);
      assert y.Keys == m.Keys by { Same(m, free, held, y, mid, held, d); }
      ThinSame(m, y, k.pages, d);
      HeldOn(m, y, k.pages, held);
      ghost var next := if found then u + 1 else (u / NENTRIES + 1) * NENTRIES;
      forall v: nat | u <= v < next && !found ensures Lookup(y, d, v) == None {
        Skipped(y, d, u, v);
      }
      FreedOn(m, y, d, oldsz, newsz, u, next, mid, k.free);
      if !found {
        u := (u / NENTRIES + 1) * NENTRIES - 1;
      }
      u := u + 1;
    }
    return newsz;
  }

  lemma Same(m: Memory, free: seq<nat>, held: set<nat>, z: Memory, left: seq<nat>, kept: set<nat>, d: nat)
    requires Moves(m, free, held, z, left, kept, d)
    ensures z.Keys == m.Keys
  {
  }

  lemma HeldOn(m: Memory, y: Memory, z: Memory, held: set<nat>)
    requires HeldSame(m, y, held) && HeldSame(y, z, held) && y.Keys == m.Keys
    ensures HeldSame(m, z, held)
  {
  }

  // ---- allocuvm ----

  /** Page v is mapped, writable for the user, to a frame of zeros. */
  ghost predicate ZeroPage(m: Memory, d: nat, v: nat) {
    && Lookup(m, d, v).Some? && Flags(Lookup(m, d, v).value) == 7   // PTE_P, PTE_W, PTE_U
    && FrameNo(Lookup(m, d, v).value) in m && m[FrameNo(Lookup(m, d, v).value)] == Zero()
  }

  // ---- what a growth costs ----

  /** The directory entries of the pages [lo, u). */
  function Spanned(lo: nat, u: nat): set<nat> { set v: nat | lo <= v < u :: v / NENTRIES }

  /** A page may bring its own frame from the free list. */
  function One(own: bool): nat { if own then 1 else 0 }

  /** The frames that mapping one page takes from the free list. */
  function PageCost(m: Memory, d: nat, u: nat, own: bool): nat { One(own) + if Present(Word(m, d, u / NENTRIES)) then 0 else 1 }

  /** The frames that mapping the pages [lo, u) takes: their own, and the tables that are missing. */
  ghost function Need(m: Memory, d: nat, lo: nat, u: nat, own: bool): nat
    requires lo <= u
  {
    (if own then u - lo else 0) + |Spanned(lo, u) - Tabs(m, d)|
  }

  lemma {:induction false} SubsetCard(a: set<nat>, b: set<nat>)
    requires a <= b
    ensures |a| <= |b|
  {
    if a != {} {
      var x :| x in a;
      SubsetCard(a - {x}, b - {x});
    }
  }

  lemma {:induction false} UnionCard(a: set<nat>, b: set<nat>)
    ensures |a + b| == |a| + |b - a|
    decreases |b|
  {
    assert a + b == a + (b - a) && a !! (b - a);
  }

  lemma NeedMono(m: Memory, d: nat, lo: nat, u: nat, hi: nat, own: bool)
    requires lo <= u <= hi
    ensures Need(m, d, lo, u, own) <= Need(m, d, lo, hi, own)
  {
    assert Spanned(lo, u) <= Spanned(lo, hi);
    hide Spanned, Tabs;
    SubsetCard(Spanned(lo, u) - Tabs(m, d), Spanned(lo, hi) - Tabs(m, d));
  }

  /** After the pages [lo, u): their tables have been added, and the frames are accounted for. */
  ghost predicate Tabled(m: Memory, free: seq<nat>, y: Memory, left: seq<nat>, d: nat, lo: nat, u: nat, own: bool) {
    lo <= u && Tabs(y, d) == Tabs(m, d) + Spanned(lo, u) && |left| + Need(m, d, lo, u, own) == |free|
  }

  lemma TabledNone(m: Memory, free: seq<nat>, d: nat, lo: nat, own: bool)
    ensures Tabled(m, free, m, free, d, lo, lo, own)
  {
    hide Tabs;
    assert Spanned(lo, lo) == {};
  }

  lemma SpannedNext(lo: nat, u: nat)
    requires lo <= u
    ensures Spanned(lo, u + 1) == Spanned(lo, u) + {u / NENTRIES}
  {
  }

  lemma AddCard(a: set<nat>, b: set<nat>, x: nat)
    ensures |(a + {x}) - b| == |a - b| + if x in a + b then 0 else 1
  {
    if x in a + b {
      assert (a + {x}) - b == a - b;
    } else {
      assert (a + {x}) - b == (a - b) + {x};
    }
  }

  lemma TabledOn(m: Memory, free: seq<nat>, y: Memory, mid: seq<nat>, z: Memory, left: seq<nat>, d: nat, lo: nat, u: nat, own: bool)
    requires Tabled(m, free, y, mid, d, lo, u, own) && Spent(y, mid, z, left, d, u, true, One(own))
    ensures Tabled(m, free, z, left, d, lo, u + 1, own)
  {
    hide Tabs;
    SpannedNext(lo, u);
    UnionCard(Tabs(m, d), Spanned(lo, u));
    UnionCard(Tabs(m, d), Spanned(lo, u + 1));
    hide Spanned;
    assert Tabs(m, d) + Spanned(lo, u) + {u / NENTRIES} == Tabs(m, d) + Spanned(lo, u + 1);
  }

  lemma NextCost(m: Memory, free: seq<nat>, y: Memory, mid: seq<nat>, d: nat, lo: nat, u: nat, own: bool)
    requires Tabled(m, free, y, mid, d, lo, u, own) && u < VPAGES
    ensures Need(m, d, lo, u + 1, own) == Need(m, d, lo, u, own) + PageCost(y, d, u, own)
    ensures |mid| + Need(m, d, lo, u, own) == |free|
  {
    SpannedNext(lo, u);
    assert u / NENTRIES in Tabs(y, d) <==> Present(Word(y, d, u / NENTRIES));
    hide Tabs, Spanned;
    AddCard(Spanned(lo, u), Tabs(m, d), u / NENTRIES);
  }

  /** No page of [lo, u) is mapped. */
  ghost predicate Clear(m: Memory, d: nat, lo: nat, u: nat) {
    forall v: nat :: lo <= v < u ==> Lookup(m, d, v) == None
  }

  /** The whole range is free to map, and there are frames for it. */
  ghost predicate Affords(m: Memory, free: seq<nat>, d: nat, lo: nat, hi: nat, own: bool) {
    lo <= hi && Clear(m, d, lo, hi) && Need(m, d, lo, hi, own) <= |free|
  }

  /** Page v is the first mapped page from lo, and the frames suffice to get to it. */
  ghost predicate Remaps(m: Memory, free: seq<nat>, d: nat, lo: nat, hi: nat, own: bool, v: nat) {
    lo <= v < hi && Clear(m, d, lo, v) && Lookup(m, d, v).Some? && Need(m, d, lo, v, own) + One(own) <= |free|
  }

  /** Mapping that stops at u for want of frames neither succeeds nor reaches a mapped page. */
  lemma RanOut(m: Memory, free: seq<nat>, d: nat, lo: nat, hi: nat, own: bool, u: nat)
    requires lo <= u < hi && Clear(m, d, lo, u) && Need(m, d, lo, u + 1, own) > |free|
    requires Lookup(m, d, u) == None || Need(m, d, lo, u, own) + One(own) > |free|
    ensures !Affords(m, free, d, lo, hi, own) && forall v :: !Remaps(m, free, d, lo, hi, own, v)
  {
    hide Lookup, Need;
    NeedMono(m, d, lo, u + 1, hi, own);
    forall v | lo <= v < hi ensures !Remaps(m, free, d, lo, hi, own, v) {
      if v > u { NeedMono(m, d, lo, u + 1, v, own); }
    }
  }

  lemma Reaches(m: Memory, free: seq<nat>, d: nat, lo: nat, hi: nat, own: bool, u: nat)
    requires lo <= u < hi && Clear(m, d, lo, u) && Lookup(m, d, u).Some? && Need(m, d, lo, u, own) + One(own) <= |free|
    ensures Remaps(m, free, d, lo, hi, own, u) && !Affords(m, free, d, lo, hi, own)
  {
    hide Lookup;
  }

  lemma Finishes(m: Memory, free: seq<nat>, z: Memory, left: seq<nat>, d: nat, lo: nat, hi: nat, own: bool)
    requires Clear(m, d, lo, hi) && Tabled(m, free, z, left, d, lo, hi, own)
    ensures Affords(m, free, d, lo, hi, own) && forall v :: !Remaps(m, free, d, lo, hi, own, v)
  {
    hide Lookup;
  }

  datatype AllocResult = Got | NoFrame | NoTable(f: nat) | Taken

  /** One turn of the loop. */
  method AllocPage(k: PhysMem, d: nat, u: nat) returns (r: AllocResult)
    requires k.Valid() && State(k.pages, k.free, {}, d) && u < UPAGES
    modifies k
    ensures k.Valid()
    ensures !r.Taken? && !r.NoFrame? ==> Lookup(old(k.pages), d, u) == None
    ensures !r.Taken? ==>
      var kept := if r.NoTable? then {r.f} else {};
      State(k.pages, k.free, kept, d) && Moves(old(k.pages), old(k.free), {}, k.pages, k.free, kept, d)
    ensures !r.Taken? ==> UserSame(old(k.pages), k.pages, d)
    ensures r.Got? ==> ZeroPage(k.pages, d, u)
    ensures r.Taken? <==> Lookup(old(k.pages), d, u).Some? && old(k.free) != []
    ensures r.Got? <==> Lookup(old(k.pages), d, u) == None && PageCost(old(k.pages), d, u, true) <= |old(k.free)|
    ensures r.Got? ==> Spent(old(k.pages), old(k.free), k.pages, k.free, d, u, true, 1)
    ensures !r.Taken? ==> forall v: nat :: v < VPAGES && (v != u || !r.Got?) ==> Lookup(k.pages, d, v) == Lookup(old(k.pages), d, v)
  {
    hide State, Moves, UserSame, HeldSame, SameView, Tabs, Zero, Has;
    ghost var m, free := k.pages, k.free;
    var f := NewFrame(k, d, Zero());
    if f == 0 {
      assert Moves(m, free, {}, m, free, {}, d) && UserSame(m, m, d) by { Begin(m, free, d, 0, 0); }
      return NoFrame;
    }
    PteParts(f, USER_PERM);
    hide Entry, Pte, FrameNo, Flags;
    ghost var y, mid := k.pages, k.free;
    var r0 := MapPage(k, d, u, f, USER_PERM, {f});
    assert {f} - {f} == {};
    AllocJoin(m, free, y, mid, k.pages, k.free, if r0.Mapped? then {} else {f}, d, f);
    if r0.Remap? {
      return Taken;
    }
    if r0.NoMemory? {
      return NoTable(f);
    }
    return Got;
  }

  /** kalloc, and memset or memmove of a whole page; 0 if no frame is left. */
  method NewFrame(k: PhysMem, d: nat, p: Page) returns (f: nat)
    requires k.Valid() && State(k.pages, k.free, {}, d) && |p| == NENTRIES
    modifies k
    ensures f == 0 <==> old(k.free) == []
    ensures f == 0 ==> k.pages == old(k.pages) && k.free == old(k.free)
    ensures k.Valid() && (f != 0 ==> |k.free| + 1 == |old(k.free)|)
    ensures f != 0 ==> State(k.pages, k.free, {f}, d) && Moves(old(k.pages), old(k.free), {}, k.pages, k.free, {f}, d)
    ensures f != 0 ==> SameView(old(k.pages), k.pages, d) && UserSame(old(k.pages), k.pages, d)
    ensures f != 0 ==> f in k.pages && k.pages[f] == p && f in old(k.free)
    ensures d in old(k.pages) && d in k.pages && k.pages[d] == old(k.pages)[d] && Tabs(k.pages, d) == Tabs(old(k.pages), d)
  {
    ghost var m, free := k.pages, k.free;
    assert Has(m, d, Dir, d);
    var a := k.Alloc();
    if a == 0 {
      return 0;
    }
    f := (a - KERNBASE) / PGSIZE;
    ghost var rest := k.free;
    assert f != d by { assert f in free; }
    TakeStep(m, rest, {}, d, f);
    assert {} + {f} == {f};
    HeldStep(m, rest, {f}, d, f, p);
    hide State, Moves, UserSame, HeldSame, SameView, Has;
    k.Write(f, p);
    SameDir(m, k.pages, d);
    MovesOn(m, free, {}, m, rest, {f}, k.pages, rest, {f}, d);
  }

  lemma AllocJoin(m: Memory, free: seq<nat>, y: Memory, mid: seq<nat>, z: Memory, left: seq<nat>, kept: set<nat>, d: nat, f: nat)
    requires Moves(m, free, {}, y, mid, {f}, d) && Moves(y, mid, {f}, z, left, kept, d)
    requires SameView(m, y, d) && UserSame(m, y, d) && UserSame(y, z, d) && HeldSame(y, z, {f}) && f in y
    ensures Moves(m, free, {}, z, left, kept, d) && UserSame(m, z, d) && f in z && z[f] == y[f]
    ensures forall v: nat :: v < VPAGES ==> Lookup(y, d, v) == Lookup(m, d, v)
  {
    MovesOn(m, free, {}, y, mid, {f}, z, left, kept, d);
    assert forall v: nat :: v < VPAGES ==> Entry(y, d, v) == Entry(m, d, v);
    forall u, g | Has(m, d, Usr(u), g) && Has(z, d, Usr(u), g) && g in m && g in z ensures z[g] == m[g] {
      assert Has(y, d, Usr(u), g);
    }
  }

  /** Pages of [oldsz, newsz) up to u are new; all others are as they were. */
  ghost predicate Grown(m: Memory, z: Memory, d: nat, oldsz: nat, newsz: nat, u: nat) {
    forall v: nat :: v < VPAGES ==>
      if Within(v, newsz, oldsz) && v < u then ZeroPage(z, d, v) && Lookup(m, d, v) == None
      else Lookup(z, d, v) == Lookup(m, d, v)
  }

  lemma GrownOn(m: Memory, y: Memory, z: Memory, d: nat, oldsz: nat, newsz: nat, u: nat)
    requires Grown(m, y, d, oldsz, newsz, u) && UserSame(y, z, d) && u < UPAGES && newsz <= KERNBASE && Within(u, newsz, oldsz)
    requires ZeroPage(z, d, u) && Lookup(y, d, u) == None && z.Keys == y.Keys
    requires forall v: nat :: v < VPAGES && v != u ==> Lookup(z, d, v) == Lookup(y, d, v)
    ensures Grown(m, z, d, oldsz, newsz, u + 1)
  {
    forall v: nat | v < VPAGES && Within(v, newsz, oldsz) && v < u ensures ZeroPage(z, d, v) {
      var g := FrameNo(Lookup(y, d, v).value);
      assert Has(y, d, Usr(v), g) && Has(z, d, Usr(v), g);
    }
  }

  lemma GrownSame(m: Memory, y: Memory, z: Memory, d: nat, oldsz: nat, newsz: nat, u: nat)
    requires Grown(m, y, d, oldsz, newsz, u) && UserSame(m, y, d) && UserSame(y, z, d) && y.Keys == m.Keys
    requires forall v: nat :: v < VPAGES && v != u ==> Lookup(z, d, v) == Lookup(y, d, v)
    requires Lookup(y, d, u) == None
    ensures UserSame(m, z, d)
  {
    forall v, g | Has(m, d, Usr(v), g) && Has(z, d, Usr(v), g) && g in m && g in z ensures z[g] == m[g] {
      assert Lookup(m, d, v).Some?;
      assert Has(y, d, Usr(v), g);
    }
  }

  /** The map after deallocuvm has undone a growth that stopped at u. */
  lemma Undone(m: Memory, y: Memory, x: Memory, z: Memory, d: nat, oldsz: nat, newsz: nat, u: nat)
    requires Grown(m, y, d, oldsz, newsz, u)
    requires forall v: nat :: v < VPAGES ==> Lookup(x, d, v) == Lookup(y, d, v)
    requires forall v: nat :: v < VPAGES ==> Lookup(z, d, v) == if Within(v, newsz, oldsz) then None else Lookup(x, d, v)
    ensures forall v: nat :: v < VPAGES ==> Lookup(z, d, v) == if Within(v, newsz, oldsz) then None else Lookup(m, d, v)
  {
    hide Lookup, ZeroPage, Within;
  }

  /** kfree of a frame that did not get mapped */
  method ReturnFrame(k: PhysMem, d: nat, f: nat, ghost m: Memory, ghost free: seq<nat>)
    requires k.Valid() && State(k.pages, k.free, {f}, d) && Moves(m, free, {}, k.pages, k.free, {f}, d)
    modifies k
    ensures k.Valid() && State(k.pages, k.free, {}, d) && Moves(m, free, {}, k.pages, k.free, {}, d)
    ensures forall v: nat :: v < VPAGES ==> Lookup(k.pages, d, v) == Lookup(old(k.pages), d, v)
  {
    ghost var y, mid := k.pages, k.free;
    k.FreeFrame(f);
    ghost var p: Page :| |p| == NENTRIES && k.pages == Over(y, f, p);
    GiveStep(y, mid, {f}, d, f, p);
    assert {f} - {f} == {};
    MovesOn(m, free, {}, y, mid, {f}, k.pages, k.free, {}, d);
  }

  lemma PagesWithin(v: nat, oldsz: nat, newsz: nat)
    ensures Within(v, newsz, oldsz) <==> PageUp(oldsz) <= v < PageUp(newsz)
  {
  }

  lemma GrownClear(m: Memory, y: Memory, d: nat, oldsz: nat, newsz: nat, u: nat)
    requires Grown(m, y, d, oldsz, newsz, u) && u <= PageUp(newsz) && newsz < KERNBASE
    ensures Clear(m, d, PageUp(oldsz), u)
    ensures PageUp(oldsz) <= u < PageUp(newsz) ==> Lookup(y, d, u) == Lookup(m, d, u)
  {
    hide Lookup, ZeroPage, Within;
    assert PageUp(newsz) <= VPAGES;
    forall v: nat | PageUp(oldsz) <= v < u ensures Lookup(m, d, v) == None {
      PagesWithin(v, oldsz, newsz);
    }
  }

  ghost predicate SameMap(m: Memory, z: Memory, d: nat) {
    forall v: nat :: v < VPAGES ==> Lookup(z, d, v) == Lookup(m, d, v)
  }

  lemma LostIff(m: Memory, z: Memory, d: nat, oldsz: nat, newsz: nat)
    requires newsz < KERNBASE
    requires forall v: nat :: v < VPAGES ==> Lookup(z, d, v) == if Within(v, newsz, oldsz) then None else Lookup(m, d, v)
    ensures SameMap(m, z, d) <==> Clear(m, d, PageUp(oldsz), PageUp(newsz))
  {
    hide Lookup, Within;
    assert PageUp(newsz) <= VPAGES;
    forall v: nat | v < VPAGES ensures Within(v, newsz, oldsz) <==> PageUp(oldsz) <= v < PageUp(newsz) {
      PagesWithin(v, oldsz, newsz);
    }
    if SameMap(m, z, d) {
      forall v: nat | PageUp(oldsz) <= v < PageUp(newsz) ensures Lookup(m, d, v) == None {
        assert Lookup(z, d, v) == Lookup(m, d, v);
      }
    }
  }

  lemma Begin(m: Memory, free: seq<nat>, d: nat, oldsz: nat, newsz: nat)
    ensures Grown(m, m, d, oldsz, newsz, PageUp(oldsz)) && UserSame(m, m, d) && Moves(m, free, {}, m, free, {}, d)
    ensures Tabled(m, free, m, free, d, PageUp(oldsz), PageUp(oldsz), true)
    ensures oldsz <= newsz ==> PageUp(oldsz) <= PageUp(newsz)
  {
    hide Lookup, ZeroPage, Tabled;
    TabledNone(m, free, d, PageUp(oldsz), true);
  }

  lemma GrownAll(m: Memory, z: Memory, d: nat, oldsz: nat, newsz: nat, u: nat)
    requires Grown(m, z, d, oldsz, newsz, u) && newsz < KERNBASE && u * PGSIZE >= newsz
    ensures Grown(m, z, d, oldsz, newsz, UPAGES)
  {
    hide Lookup, ZeroPage;
  }

  /** The way out when a turn has failed: deallocuvm, and kfree of the frame in hand. */
  method Retreat(k: PhysMem, d: nat, oldsz: nat, newsz: nat, a: AllocResult, ghost m: Memory, ghost free: seq<nat>, ghost y: Memory, ghost u: nat)
    requires k.Valid() && (a.NoFrame? || a.NoTable?) && oldsz <= newsz < KERNBASE && Grown(m, y, d, oldsz, newsz, u)
    requires var held := if a.NoTable? then {a.f} else {}; State(k.pages, k.free, held, d) && Moves(m, free, {}, k.pages, k.free, held, d)
    requires forall v: nat :: v < VPAGES ==> Lookup(k.pages, d, v) == Lookup(y, d, v)
    modifies k
    ensures k.Valid() && State(k.pages, k.free, {}, d) && Moves(m, free, {}, k.pages, k.free, {}, d)
    ensures forall v: nat :: v < VPAGES ==> Lookup(k.pages, d, v) == if Within(v, newsz, oldsz) then None else Lookup(m, d, v)
    ensures SameMap(m, k.pages, d) <==> Clear(m, d, PageUp(oldsz), PageUp(newsz))
  {
    hide State, Moves, Grown, Clear, UserSame, HeldSame, PagesFreed, SameMap;
    ghost var x, rest, held := k.pages, k.free, if a.NoTable? then {a.f} else {};
    var _ := DeallocUvm(k, d, newsz, oldsz, held);
    MovesOn(m, free, {}, x, rest, held, k.pages, k.free, held, d);
    if oldsz == newsz { NoneWithin(oldsz, newsz); }
    Undone(m, y, x, k.pages, d, oldsz, newsz, u);
    if a.NoTable? {
      ReturnFrame(k, d, a.f, m, free);
    }
    LostIff(m, k.pages, d, oldsz, newsz);
  }

  lemma NoneWithin(oldsz: nat, newsz: nat)
    requires oldsz == newsz
    ensures forall v: nat :: !Within(v, newsz, oldsz)
  {
  }

  /** allocuvm: every page of [oldsz, newsz) gets a frame of zeros, or none does.  A failure
      leaves no frame in hand; on a range that was not mapped it restores the flat map. */
  method AllocUvm(k: PhysMem, d: nat, oldsz: nat, newsz: nat) returns (ok: bool, r: nat, panic: bool)
    requires k.Valid() && State(k.pages, k.free, {}, d)
    modifies k
    ensures panic <==> oldsz <= newsz < KERNBASE && exists v :: Remaps(old(k.pages), old(k.free), d, PageUp(oldsz), PageUp(newsz), true, v)
    ensures ok <==> newsz < KERNBASE && (newsz < oldsz || Affords(old(k.pages), old(k.free), d, PageUp(oldsz), PageUp(newsz), true))
    ensures !panic ==> k.Valid() && State(k.pages, k.free, {}, d) && Moves(old(k.pages), old(k.free), {}, k.pages, k.free, {}, d)
    ensures !ok ==> r == 0
    ensures newsz >= KERNBASE ==> !ok
    ensures newsz < KERNBASE && newsz < oldsz ==> ok && r == oldsz
    ensures newsz >= KERNBASE || newsz < oldsz ==> !panic && k.pages == old(k.pages) && k.free == old(k.free)
    ensures !panic && oldsz <= newsz < KERNBASE ==>
      if ok then r == newsz && Grown(old(k.pages), k.pages, d, oldsz, newsz, UPAGES) && UserSame(old(k.pages), k.pages, d)
      else forall v: nat :: v < VPAGES ==> Lookup(k.pages, d, v) == if Within(v, newsz, oldsz) then None else Lookup(old(k.pages), d, v)
    // a failure restores the flat map exactly when none of the range was mapped
    ensures !panic && !ok && oldsz <= newsz < KERNBASE ==>
      (SameMap(old(k.pages), k.pages, d) <==> Clear(old(k.pages), d, PageUp(oldsz), PageUp(newsz)))
  {
    hide State, Moves, UserSame, Lookup, ZeroPage, Tabled, Need, Spent, Grown, Clear, Remaps, Affords, SameMap, Within;
    Begin(k.pages, k.free, d, oldsz, newsz);
    if newsz >= KERNBASE {
      return false, 0, false;
    }
    if newsz < oldsz {
      return true, oldsz, false;
    }
    var u := PageUp(oldsz);
    ghost var m, free, lo := k.pages, k.free, PageUp(oldsz);
    while u * PGSIZE < newsz
      invariant k.Valid() && State(k.pages, k.free, {}, d) && lo <= u <= PageUp(newsz)
      invariant Grown(m, k.pages, d, oldsz, newsz, u) && UserSame(m, k.pages, d)
      invariant Moves(m, free, {}, k.pages, k.free, {}, d)
      invariant Tabled(m, free, k.pages, k.free, d, lo, u, true)
      decreases newsz - u * PGSIZE
    {
      ghost var y, mid := k.pages, k.free;
      NextCost(m, free, y, mid, d, lo, u, true);
      GrownClear(m, y, d, oldsz, newsz, u);
      Same(m, free, {}, y, mid, {}, d);
      var a := AllocPage(k, d, u);
      if a.Taken? {
        Reaches(m, free, d, lo, PageUp(newsz), true, u);
        return false, 0, true;
      }
      ghost var held := if a.NoTable? then {a.f} else {};
      MovesOn(m, free, {}, y, mid, {}, k.pages, k.free, held, d);
      Same(m, free, {}, k.pages, k.free, held, d);
      if !a.Got? {
        RanOut(m, free, d, lo, PageUp(newsz), true, u);
        Retreat(k, d, oldsz, newsz, a, m, free, y, u);
        return false, 0, false;
      }
      PagesWithin(u, oldsz, newsz);
      GrownOn(m, y, k.pages, d, oldsz, newsz, u);
      GrownSame(m, y, k.pages, d, oldsz, newsz, u);
      TabledOn(m, free, y, mid, k.pages, k.free, d, lo, u, true);
      u := u + 1;
    }
    GrownClear(m, k.pages, d, oldsz, newsz, u);
    Finishes(m, free, k.pages, k.free, d, lo, u, true);
    GrownAll(m, k.pages, d, oldsz, newsz, u);
    return true, newsz, false;
  }

  // ---- a failed growth that loses a page ----

  /** Directory 1, table 2, and frame 3 mapped as page 1; no frame is free. */
  function Small(): Memory {
    map[1 := Put(Zero(), 0, Pte(2, USER_PERM)), 2 := Put(Zero(), 1, Pte(3, USER_PERM)), 3 := Zero()]
  }

  lemma SmallEntries(u: nat)
    ensures Word(Small(), 1, u) == if u == 0 then Pte(2, USER_PERM) else 0
    ensures Entry(Small(), 1, u) == if u == 1 then Pte(3, USER_PERM) else 0
  {
    PteParts(2, USER_PERM);
    PteParts(3, USER_PERM);
    hide Pte, FrameNo, Present;
    assert Put(Zero(), 0, Pte(2, USER_PERM))[0] == Pte(2, USER_PERM);
    assert forall i :: 0 < i < NENTRIES ==> Put(Zero(), 0, Pte(2, USER_PERM))[i] == 0;
    assert Put(Zero(), 1, Pte(3, USER_PERM))[1] == Pte(3, USER_PERM);
    assert forall i :: 0 <= i < NENTRIES && i != 1 ==> Put(Zero(), 1, Pte(3, USER_PERM))[i] == 0;
  }

  lemma SmallState()
    ensures State(Small(), [], {}, 1)
  {
    PteParts(2, USER_PERM);
    PteParts(3, USER_PERM);
    forall r, f ensures Has(Small(), 1, r, f) <==> (r == Dir && f == 1) || (r == Tab(0) && f == 2) || (r == Usr(1) && f == 3) {
      match r
      case Dir =>
      case Tab(i) => SmallEntries(i);
      case Usr(u) => SmallEntries(u);
    }
    hide Has, Pte;
  }

  /** Growing from nothing to two pages fails for want of a frame, and page 1, which was mapped
      before the call, is gone. */
  method LosesPage() returns (k: PhysMem, ok: bool, panic: bool)
    ensures k.Valid() && !ok && !panic
    ensures Lookup(Small(), 1, 1).Some? && Lookup(k.pages, 1, 1) == None
  {
    SmallState();
    k := new PhysMem(Small(), 1, 4);
    SmallEntries(1);
    PteParts(3, USER_PERM);
    hide State, Moves, UserSame, Lookup, Small, Grown;
    var r;
    ok, r, panic := AllocUvm(k, 1, 0, 8192);
    NeedMono(Small(), 1, 0, 1, 2, true);
  }
}
