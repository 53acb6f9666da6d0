/** Whole address spaces: setupkvm, freevm and copyuvm of vm.c. */
module VmSpace {
  import opened Options
  import opened PageTable
  import opened Kalloc
  import opened Vm

  // ---- freevm ----

  /** left holds the frames of free and the tables before entry i. */
  ghost predicate TablesFreed(m: Memory, free: seq<nat>, d: nat, i: nat, left: seq<nat>) {
    forall g :: g in left <==> g in free || exists j: nat :: j < i && Has(m, d, Tab(j), g)
  }

  lemma FreedOne(m: Memory, free: seq<nat>, d: nat, i: nat, left: seq<nat>, t: nat)
    requires Inv(m, free, d) && TablesFreed(m, free, d, i, left) && Has(m, d, Tab(i), t)
    ensures t !in left && t != d && TablesFreed(m, free, d, i + 1, [t] + left)
  {
    assert Has(m, d, Dir, d);
    assert forall g :: g in [t] + left <==> g == t || g in left;
    hide Has;
  }

  lemma FreedNone(m: Memory, free: seq<nat>, d: nat, i: nat, left: seq<nat>)
    requires TablesFreed(m, free, d, i, left) && forall g :: !Has(m, d, Tab(i), g)
    ensures TablesFreed(m, free, d, i + 1, left)
  {
    hide Has;
  }

  /** With no user page left, tables and directory are all the table owns. */
  lemma AllFreed(m: Memory, free: seq<nat>, d: nat, left: seq<nat>)
    requires TablesFreed(m, free, d, NENTRIES, left)
    requires forall v: nat :: v < UPAGES ==> Lookup(m, d, v) == None
    ensures forall g :: g in [d] + left <==> InPool(m, free, {}, d, g)
  {
    assert Has(m, d, Dir, d);
    forall u: nat, g ensures !Has(m, d, Usr(u), g) {
      assert u < UPAGES ==> Lookup(m, d, u) == None;
    }
    forall g ensures g in [d] + left <==> InPool(m, free, {}, d, g) {
      if Owns(m, d, g) {
        var r :| Has(m, d, r, g);
      }
    }
  }

  /** freevm: every user frame, every table and the directory become free, each once, and
      nothing else does. */
  method FreeVm(k: PhysMem, d: nat)
    requires k.Valid() && State(k.pages, k.free, {}, d)
    modifies k
    ensures k.Valid() && k.pages.Keys == old(k.pages).Keys
    ensures forall g :: g in k.free <==> InPool(old(k.pages), old(k.free), {}, d, g)
    ensures forall g :: g in k.pages && !InPool(old(k.pages), old(k.free), {}, d, g) ==> k.pages[g] == old(k.pages)[g]
  {
    ghost var m0, free0 := k.pages, k.free;
    var _ := DeallocUvm(k, d, KERNBASE, 0, {});
    ghost var m, free := k.pages, k.free;
    assert forall v: nat :: v < UPAGES ==> Within(v, KERNBASE, 0);
    assert forall v: nat :: v < UPAGES ==> Lookup(m, d, v) == None;
    assert Has(m, d, Dir, d);
    assert m.Keys == m0.Keys;
    hide Moves, State, Lookup, UserSame;
    var i := 0;
    while i < NENTRIES
      invariant k.Valid() && i <= NENTRIES && k.pages.Keys == m.Keys && k.pages[d] == m[d]
      invariant TablesFreed(m, free, d, i, k.free) && d !in k.free
      invariant forall g :: g in m && !InPool(m, free, {}, d, g) ==> k.pages[g] == m[g]
    {
      FreeTable(k, d, i, m, free);
      i := i + 1;
    }
    ghost var left := k.free;
    k.FreeFrame(d);
    AllFreed(m, free, d, left);
    assert forall g :: InPool(m, free, {}, d, g) <==> InPool(m0, free0, {}, d, g) by { PoolSame(m0, free0, m, free, d); }
    FrameSame(m0, free0, m, free, k.pages, d);
  }

  lemma PoolSame(m0: Memory, free0: seq<nat>, m: Memory, free: seq<nat>, d: nat)
    requires Moves(m0, free0, {}, m, free, {}, d)
    ensures forall g :: InPool(m, free, {}, d, g) <==> InPool(m0, free0, {}, d, g)
  {
  }

  lemma FrameSame(m0: Memory, free0: seq<nat>, m: Memory, free: seq<nat>, z: Memory, d: nat)
    requires Moves(m0, free0, {}, m, free, {}, d) && z.Keys == m.Keys
    requires forall g :: g in m && !InPool(m, free, {}, d, g) ==> z[g] == m[g]
    ensures forall g :: g in z && !InPool(m0, free0, {}, d, g) ==> g in m0 && z[g] == m0[g]
  {
    hide InPool;
  }

  /** One turn of the loop of freevm. */
  method FreeTable(k: PhysMem, d: nat, i: nat, ghost m: Memory, ghost free: seq<nat>)
    requires k.Valid() && i < NENTRIES && State(m, free, {}, d)
    requires d in m && k.pages.Keys == m.Keys && k.pages[d] == m[d] && TablesFreed(m, free, d, i, k.free) && d !in k.free
    requires forall g :: g in m && !InPool(m, free, {}, d, g) ==> k.pages[g] == m[g]
    modifies k
    ensures k.Valid() && k.pages.Keys == m.Keys && k.pages[d] == m[d]
    ensures TablesFreed(m, free, d, i + 1, k.free) && d !in k.free
    ensures forall g :: g in m && !InPool(m, free, {}, d, g) ==> k.pages[g] == m[g]
  {
    assert |m[d]| == NENTRIES;
    var pde := k.pages[d][i];
    if Present(pde) {
      var t := FrameNo(pde);
      assert Has(m, d, Tab(i), t) && Owns(m, d, t);
      FreedOne(m, free, d, i, k.free, t);
      hide TablesFreed, State;
      assert t in m by { assert Inv(m, free, d); }
      ghost var was := k.pages;
      k.FreeFrame(t);
      ghost var p: Page :| |p| == NENTRIES && k.pages == Over(was, t, p);
      hide InPool;
      assert InPool(m, free, {}, d, t);
    } else {
      FreedNone(m, free, d, i, k.free);
    }
  }

  // ---- setupkvm ----

  /** n pages from virtual page u, mapped to frames from f. */
  datatype Region = Region(u: nat, n: nat, f: nat, perm: nat)

  function End(r: Region): nat { r.u + r.n }

  predicate Covers(r: Region, v: nat) { r.u <= v < r.u + r.n }

  predicate RangeOk(r: Region) { r.n > 0 && r.u + r.n <= VPAGES && r.perm < 4096 }

  predicate RegionOk(r: Region) { UPAGES <= r.u && RangeOk(r) }

  predicate ForUser(r: Region, g: nat) { r.f <= g && r.u + (g - r.f) < UPAGES }

  /** The frames that the first i pages of a range give to the user part of a table. */
  ghost function Given(r: Region, i: nat): set<nat> { set g: nat | r.f <= g < r.f + i && ForUser(r, g) }

  /** A user range maps frames that were in hand. */
  ghost predicate InHand(r: Region, held: set<nat>) { Given(r, r.n) <= held }

  lemma GivenNext(r: Region, i: nat, held: set<nat>)
    requires i < r.n && InHand(r, held)
    ensures r.u + i < UPAGES ==> r.f + i in held - Given(r, i)
    ensures held - Given(r, i + 1) == if r.u + i < UPAGES then held - Given(r, i) - {r.f + i} else held - Given(r, i)
  {
    if r.u + i < UPAGES {
      assert Given(r, i + 1) == Given(r, i) + {r.f + i};
    } else {
      assert Given(r, i + 1) == Given(r, i);
    }
  }

  /** Kernel regions that do not meet. */
  ghost predicate KmapOk(rs: seq<Region>) {
    && (forall i :: 0 <= i < |rs| ==> RegionOk(rs[i]))
    && (forall i, j, v :: 0 <= i < j < |rs| && Covers(rs[i], v) ==> !Covers(rs[j], v))
  }

  /** The flat map the regions describe. */
  function KernelEntry(rs: seq<Region>, v: nat): nat {
    if rs == [] then 0
    else
      var r := rs[|rs| - 1];
      if Covers(r, v) then Pte(r.f + (v - r.u), r.perm) else KernelEntry(rs[..|rs| - 1], v)
  }

  lemma {:induction false} NotCovered(rs: seq<Region>, v: nat)
    requires forall i :: 0 <= i < |rs| ==> !Covers(rs[i], v)
    ensures KernelEntry(rs, v) == 0
  {
    if rs != [] {
      NotCovered(rs[..|rs| - 1], v);
    }
  }

  /** kmap[]; data is the first page of the kernel's data. */
  function Kmap(data: nat): seq<Region>
    requires 0x80100 < data < 0x80000 + PHYSFRAMES
  {
    [Region(0x80000, 0x100, 0, 2),
     Region(0x80100, data - 0x80100, 0x100, 0),
     Region(data, 0x80000 + PHYSFRAMES - data, data - 0x80000, 2),
     Region(0xFE000, 0x2000, 0xFE000, 2)]
  }

  lemma KmapFine(data: nat)
    requires 0x80100 < data < 0x80000 + PHYSFRAMES
    ensures KmapOk(Kmap(data))
  {
  }

  /** What the kernel sees: memory from KERNBASE up to PHYSTOP, and the devices where they are; the
      pages of its text and constants are read-only, and nothing else is mapped. */
  lemma KmapMaps(data: nat, v: nat)
    requires 0x80100 < data < 0x80000 + PHYSFRAMES && v < VPAGES
    ensures var w := KernelEntry(Kmap(data), v);
      && (0x80000 <= v < 0x80000 + 0xE000 ==> Present(w) && FrameNo(w) == v - 0x80000)
      && (0xFE000 <= v ==> Present(w) && FrameNo(w) == v)
      && (Present(w) ==> Flags(w) == if 0x80100 <= v < data then 1 else 3)
      && (v < 0x80000 || 0x8E000 <= v < 0xFE000 ==> w == 0)
  {
    var rs := Kmap(data);
    assert rs[..3][..2] == rs[..2] && rs[..2][..1] == rs[..1];
    assert KernelEntry(rs[..1], v) == if Covers(rs[0], v) then Pte(v - 0x80000, 2) else 0;
    assert KernelEntry(rs[..2], v) == if Covers(rs[1], v) then Pte(v - 0x80000, 0) else KernelEntry(rs[..1], v);
    assert KernelEntry(rs[..3], v) == if Covers(rs[2], v) then Pte(v - 0x80000, 2) else KernelEntry(rs[..2], v);
    assert KernelEntry(rs, v) == if Covers(rs[3], v) then Pte(v, 2) else KernelEntry(rs[..3], v);
    hide Pte, KernelEntry;
    if v < 0x80000 || 0x8E000 <= v < 0xFE000 {
      NotCovered(rs, v);
    } else if v < 0x8E000 {
      PteParts(v - 0x80000, 2);
      PteParts(v - 0x80000, 0);
    } else {
      PteParts(v, 2);
    }
  }

  ghost predicate MapsTo(m: Memory, z: Memory, d: nat, r: Region, i: nat) {
    forall v: nat :: v < VPAGES ==> Entry(z, d, v) == if Covers(r, v) && v < r.u + i then Pte(r.f + (v - r.u), r.perm) else Entry(m, d, v)
  }

  lemma MapsOn(m: Memory, y: Memory, z: Memory, d: nat, r: Region, i: nat)
    requires MapsTo(m, y, d, r, i) && i < r.n
    requires forall v: nat :: v < VPAGES ==> Entry(z, d, v) == if v == r.u + i then Pte(r.f + i, r.perm) else Entry(y, d, v)
    ensures MapsTo(m, z, d, r, i + 1)
  {
    hide Entry, Pte;
  }

  lemma MapsNone(m: Memory, d: nat, r: Region)
    ensures MapsTo(m, m, d, r, 0)
  {
    hide Entry, Pte;
  }

  /** mappages: maps page after page until it meets a mapped one or needs a table and has no
      frame for it; done pages have been mapped. */
  method MapPages(k: PhysMem, d: nat, r: Region, ghost held: set<nat>) returns (o: MapResult, ghost done: nat)
    requires k.Valid() && State(k.pages, k.free, held, d) && RangeOk(r) && InHand(r, held)
    modifies k
    ensures done <= r.n && (o.Mapped? ==> done == r.n)
    ensures k.Valid() && State(k.pages, k.free, held - Given(r, done), d)
    ensures Moves(old(k.pages), old(k.free), held, k.pages, k.free, held - Given(r, done), d)
    ensures MapsTo(old(k.pages), k.pages, d, r, done)
    ensures Tabled(old(k.pages), old(k.free), k.pages, k.free, d, r.u, r.u + done, false)
    ensures o.Mapped? <==> Affords(old(k.pages), old(k.free), d, r.u, End(r), false)
    ensures o.Remap? <==> exists v :: Remaps(old(k.pages), old(k.free), d, r.u, End(r), false, v)
  {
    hide State, Moves, Entry, UserSame, HeldSame, MapsTo, Pte, Given, InHand, Tabled, Affords, Remaps, Clear, Need, Spent, Lookup;
    var i := 0;
    ghost var m, free := k.pages, k.free;
    GivenNone(m, free, held, d, r);
    MapsNone(m, d, r);
    TabledNone(m, free, d, r.u, false);
    while i < r.n
      invariant k.Valid() && State(k.pages, k.free, held - Given(r, i), d) && i <= r.n
      invariant Moves(m, free, held, k.pages, k.free, held - Given(r, i), d) && MapsTo(m, k.pages, d, r, i)
      invariant Tabled(m, free, k.pages, k.free, d, r.u, r.u + i, false) && Clear(m, d, r.u, r.u + i)
    {
      ghost var y, mid := k.pages, k.free;
      NotYet(m, y, d, r, i);
      NextCost(m, free, y, mid, d, r.u, r.u + i, false);
      GivenNext(r, i, held);
      done := i;
      o := MapPage(k, d, r.u + i, r.f + i, r.perm, held - Given(r, i));
      if o.Remap? {
        Reaches(m, free, d, r.u, End(r), false, r.u + i);
        return;
      }
      if o.NoMemory? {
        RanOut(m, free, d, r.u, End(r), false, r.u + i);
        return;
      }
      MovesOn(m, free, held, y, mid, held - Given(r, i), k.pages, k.free, held - Given(r, i + 1), d);
      MapsOn(m, y, k.pages, d, r, i);
      TabledOn(m, free, y, mid, k.pages, k.free, d, r.u, r.u + i, false);
      ClearOn(m, d, r.u, r.u + i);
      i := i + 1;
    }
    Finishes(m, free, k.pages, k.free, d, r.u, End(r), false);
    return Mapped, r.n;
  }

  lemma GivenNone(m: Memory, free: seq<nat>, held: set<nat>, d: nat, r: Region)
    ensures held - Given(r, 0) == held && Moves(m, free, held, m, free, held, d) && Clear(m, d, r.u, r.u)
  {
  }

  lemma ClearOn(m: Memory, d: nat, lo: nat, u: nat)
    requires Clear(m, d, lo, u) && Lookup(m, d, u) == None
    ensures Clear(m, d, lo, u + 1)
  {
    hide Lookup;
  }

  lemma NotYet(m: Memory, y: Memory, d: nat, r: Region, i: nat)
    requires MapsTo(m, y, d, r, i) && i < r.n && RangeOk(r)
    ensures Entry(y, d, r.u + i) == Entry(m, d, r.u + i) && Lookup(y, d, r.u + i) == Lookup(m, d, r.u + i)
    ensures Lookup(m, d, r.u + i).Some? <==> Present(Entry(m, d, r.u + i))
    ensures !Present(Word(y, d, (r.u + i) / NENTRIES)) ==> Lookup(m, d, r.u + i) == None
  {
  }

  /** A new table built only from frames of free: those it has not taken are still free or in
      hand, and no other page has changed. */
  ghost predicate Built(m: Memory, free: seq<nat>, z: Memory, left: seq<nat>, held: set<nat>, d: nat) {
    && z.Keys == m.Keys
    && (forall g :: InPool(z, left, held, d, g) <==> g in free)
    && (forall g :: g in m && g !in free ==> z[g] == m[g])
  }

  lemma BuiltOn(m: Memory, free: seq<nat>, y: Memory, mid: seq<nat>, some_: set<nat>, z: Memory, left: seq<nat>, kept: set<nat>, d: nat)
    requires Built(m, free, y, mid, some_, d) && Moves(y, mid, some_, z, left, kept, d)
    ensures Built(m, free, z, left, kept, d)
  {
    hide InPool;
  }

  /** Everything taken has been given back. */
  ghost predicate Restored(m: Memory, free: seq<nat>, z: Memory, left: seq<nat>) {
    && z.Keys == m.Keys
    && (forall g :: g in left <==> g in free)
    && (forall g :: g in m && g !in free ==> z[g] == m[g])
  }

  lemma TornDown(m: Memory, free: seq<nat>, y: Memory, mid: seq<nat>, z: Memory, left: seq<nat>, d: nat)
    requires Built(m, free, y, mid, {}, d) && z.Keys == y.Keys
    requires forall g :: g in left <==> InPool(y, mid, {}, d, g)
    requires forall g :: g in z && !InPool(y, mid, {}, d, g) ==> z[g] == y[g]
    ensures Restored(m, free, z, left)
  {
    hide InPool;
  }

  lemma FreshDir(m: Memory, free: seq<nat>, d: nat)
    requires d in m && d !in free
    ensures var z := Over(m, d, Zero());
      && State(z, free, {}, d) && Built(m, [d] + free, z, free, {}, d)
      && forall v: nat :: v < VPAGES ==> Entry(z, d, v) == 0
  {
    var z := Over(m, d, Zero());
    forall r, f ensures Has(z, d, r, f) <==> r == Dir && f == d {
    }
    assert Has(z, d, Dir, d);
    hide Has, Entry;
    forall g ensures Owns(z, d, g) <==> g == d {
    }
    assert forall g :: g in [d] + free <==> g == d || g in free;
  }

  ghost predicate KernelOnly(m: Memory, d: nat, rs: seq<Region>) {
    forall v: nat :: v < VPAGES ==> Entry(m, d, v) == KernelEntry(rs, v)
  }

  lemma KernelOn(m: Memory, z: Memory, d: nat, rs: seq<Region>, c: nat)
    requires c < |rs| && KernelOnly(m, d, rs[..c]) && MapsTo(m, z, d, rs[c], rs[c].n)
    ensures KernelOnly(z, d, rs[..c + 1])
  {
    assert rs[..c + 1][..c] == rs[..c];
    hide Entry, Pte;
  }

  lemma NoOverlap(m: Memory, d: nat, rs: seq<Region>, c: nat, v: nat)
    requires KmapOk(rs) && c < |rs| && KernelOnly(m, d, rs[..c]) && Covers(rs[c], v)
    ensures Entry(m, d, v) == 0
  {
    NotCovered(rs[..c], v);
  }

  lemma EmptyMap(m: Memory, d: nat)
    requires forall v: nat :: v < VPAGES ==> Entry(m, d, v) == 0
    ensures KernelOnly(m, d, [])
  {
  }

  /** The directory entries the regions need. */
  function KernelTabs(rs: seq<Region>): set<nat> {
    if rs == [] then {}
    else
      var r := rs[|rs| - 1];
      KernelTabs(rs[..|rs| - 1]) + Spanned(r.u, End(r))
  }

  lemma {:induction false} KernelTabsMono(rs: seq<Region>, c: nat)
    requires c <= |rs|
    ensures |KernelTabs(rs[..c])| <= |KernelTabs(rs)|
    decreases |rs|
  {
    if c == |rs| {
      assert rs[..c] == rs;
    } else {
      KernelTabsMono(rs[..|rs| - 1], c);
      assert rs[..|rs| - 1][..c] == rs[..c];
      SubsetCard(KernelTabs(rs[..|rs| - 1]), KernelTabs(rs));
    }
  }

  lemma KernelTabsNext(rs: seq<Region>, c: nat)
    requires c < |rs|
    ensures KernelTabs(rs[..c + 1]) == KernelTabs(rs[..c]) + Spanned(rs[c].u, End(rs[c]))
    ensures |KernelTabs(rs[..c + 1])| == |KernelTabs(rs[..c])| + |Spanned(rs[c].u, End(rs[c])) - KernelTabs(rs[..c])|
  {
    hide Spanned;
    assert rs[..c + 1][..c] == rs[..c];
    UnionCard(KernelTabs(rs[..c]), Spanned(rs[c].u, End(rs[c])));
  }

  /** The tables of d are those of the first c regions, and all frames taken are accounted for. */
  ghost predicate KernelPaid(m: Memory, left: seq<nat>, free: seq<nat>, d: nat, rs: seq<Region>, c: nat)
    requires c <= |rs|
  {
    Tabs(m, d) == KernelTabs(rs[..c]) && |left| + 1 + |KernelTabs(rs[..c])| == |free|
  }

  lemma KernelPaidOn(y: Memory, mid: seq<nat>, z: Memory, left: seq<nat>, free: seq<nat>, d: nat, rs: seq<Region>, c: nat)
    requires c < |rs| && KernelPaid(y, mid, free, d, rs, c) && Tabled(y, mid, z, left, d, rs[c].u, End(rs[c]), false)
    ensures KernelPaid(z, left, free, d, rs, c + 1)
  {
    hide Tabs, KernelTabs, Spanned;
    KernelTabsNext(rs, c);
  }

  lemma KernelShort(y: Memory, mid: seq<nat>, free: seq<nat>, d: nat, rs: seq<Region>, c: nat)
    requires c < |rs| && KernelPaid(y, mid, free, d, rs, c) && Clear(y, d, rs[c].u, End(rs[c]))
    requires !Affords(y, mid, d, rs[c].u, End(rs[c]), false)
    ensures 1 + |KernelTabs(rs)| > |free|
  {
    hide Tabs, KernelTabs, Spanned, Clear;
    KernelTabsNext(rs, c);
    KernelTabsMono(rs, c + 1);
  }

  lemma KernelFresh(m: Memory, left: seq<nat>, free: seq<nat>, d: nat, rs: seq<Region>)
    requires d in m && m[d] == Zero() && |left| + 1 == |free|
    ensures KernelPaid(m, left, free, d, rs, 0)
  {
    assert rs[..0] == [] && Tabs(m, d) == {};
  }

  /** The region c meets no page the earlier ones mapped. */
  lemma RegionClear(m: Memory, d: nat, rs: seq<Region>, c: nat)
    requires KmapOk(rs) && c < |rs| && KernelOnly(m, d, rs[..c])
    ensures Clear(m, d, rs[c].u, End(rs[c]))
  {
    hide KernelOnly;
    forall v: nat | rs[c].u <= v < End(rs[c]) ensures Lookup(m, d, v) == None {
      NoOverlap(m, d, rs, c, v);
    }
  }

  /** setupkvm: a directory with exactly the kernel's mappings, or 0 with nothing taken. */
  method SetupKvm(k: PhysMem, rs: seq<Region>) returns (d: nat)
    requires k.Valid() && KmapOk(rs)
    modifies k
    ensures k.Valid()
    ensures d == 0 ==> Restored(old(k.pages), old(k.free), k.pages, k.free)
    ensures d != 0 ==> State(k.pages, k.free, {}, d) && Built(old(k.pages), old(k.free), k.pages, k.free, {}, d)
    ensures d != 0 ==> KernelOnly(k.pages, d, rs) && d in old(k.free)
    // it needs the directory and the tables of the regions
    ensures d != 0 <==> 1 + |KernelTabs(rs)| <= |old(k.free)|
    ensures d != 0 ==> Tabs(k.pages, d) == KernelTabs(rs) && |k.free| + 1 + |KernelTabs(rs)| == |old(k.free)|
  {
    hide State, Built, KernelOnly, Entry, Moves, Chain, NoDup, KernelPaid, KernelTabs, Tabs, MapsTo, Tabled, Affords, Remaps, Clear;
    ghost var m, free := k.pages, k.free;
    var a := k.Alloc();
    if a == 0 {
      return 0;
    }
    d := (a - KERNBASE) / PGSIZE;
    FreshDir(m, k.free, d);
    k.Write(d, Zero());
    var c := 0;
    assert rs[..0] == [];
    assert KernelOnly(k.pages, d, []) by { EmptyMap(k.pages, d); }
    KernelFresh(k.pages, k.free, free, d, rs);
    assert d in free;
    while c < |rs|
      invariant k.Valid() && State(k.pages, k.free, {}, d) && c <= |rs|
      invariant Built(m, free, k.pages, k.free, {}, d) && KernelOnly(k.pages, d, rs[..c])
      invariant KernelPaid(k.pages, k.free, free, d, rs, c)
    {
      ghost var y, mid := k.pages, k.free;
      RegionClear(y, d, rs, c);
      ClearStays(y, mid, d, rs[c]);
      ghost var done;
      var o;
      o, done := MapPages(k, d, rs[c], {});
      assert {} - Given(rs[c], done) == {};
      BuiltOn(m, free, y, mid, {}, k.pages, k.free, {}, d);
      if o.NoMemory? {
        KernelShort(y, mid, free, d, rs, c);
        ghost var x, rest := k.pages, k.free;
        FreeVm(k, d);
        TornDown(m, free, x, rest, k.pages, k.free, d);
        return 0;
      }
      KernelOn(y, k.pages, d, rs, c);
      KernelPaidOn(y, mid, k.pages, k.free, free, d, rs, c);
      c := c + 1;
    }
    assert rs[..|rs|] == rs;
    KernelPaidAll(k.pages, k.free, free, d, rs);
    return d;
  }

  lemma ClearStays(m: Memory, free: seq<nat>, d: nat, r: Region)
    requires Clear(m, d, r.u, End(r))
    ensures forall v :: !Remaps(m, free, d, r.u, End(r), false, v)
  {
    hide Lookup, Need;
  }

  lemma KernelPaidAll(m: Memory, left: seq<nat>, free: seq<nat>, d: nat, rs: seq<Region>)
    requires KernelPaid(m, left, free, d, rs, |rs|)
    ensures Tabs(m, d) == KernelTabs(rs) && |left| + 1 + |KernelTabs(rs)| == |free|
  {
    assert rs[..|rs|] == rs;
  }

  // ---- copyuvm ----

  /** A table whose frames nobody wrote means what it meant. */
  lemma Untouched(m: Memory, free: seq<nat>, z: Memory, left: seq<nat>, p: nat)
    requires Inv(m, free, p) && z.Keys == m.Keys && forall g :: g in m && g !in free ==> z[g] == m[g]
    requires forall g :: g in left ==> g in free
    ensures Inv(z, left, p) && SameView(m, z, p) && forall r, g :: Has(z, p, r, g) <==> Has(m, p, r, g)
  {
    assert Has(m, p, Dir, p) && z[p] == m[p];
    forall v: nat ensures Entry(z, p, v) == Entry(m, p, v) {
      var w := Word(m, p, v / NENTRIES);
      assert Present(w) && v / NENTRIES < NENTRIES ==> Has(m, p, Tab(v / NENTRIES), FrameNo(w));
    }
    forall r, g ensures Has(z, p, r, g) <==> Has(m, p, r, g) {
    }
    hide Has, Entry;
  }

  /** Page v of d has the flags and the bytes of page v of p, in a frame of its own. */
  ghost predicate CopiedPage(m: Memory, z: Memory, p: nat, d: nat, v: nat) {
    && Lookup(m, p, v).Some? && Lookup(z, d, v).Some?
    && Flags(Lookup(z, d, v).value) == Flags(Lookup(m, p, v).value)
    && var from, to := FrameNo(Lookup(m, p, v).value), FrameNo(Lookup(z, d, v).value);
       from in m && to in z && z[to] == m[from]
  }

  datatype PageCopy = Copied | NoFrames | Missing

  /** One turn of the loop of copyuvm; free is the free list the call began with. */
  method CopyPage(k: PhysMem, p: nat, d: nat, u: nat, ghost m: Memory, ghost free: seq<nat>) returns (r: PageCopy)
    requires k.Valid() && State(k.pages, k.free, {}, d) && Built(m, free, k.pages, k.free, {}, d)
    requires Inv(m, free, p) && u < UPAGES && Entry(k.pages, d, u) == 0
    modifies k
    ensures r.Missing? <==> Lookup(m, p, u) == None
    ensures r.Copied? <==> Lookup(m, p, u).Some? && PageCost(old(k.pages), d, u, true) <= |old(k.free)|
    ensures r.Copied? ==> Spent(old(k.pages), old(k.free), k.pages, k.free, d, u, true, 1)
    ensures !r.Missing? ==> k.Valid() && State(k.pages, k.free, {}, d) && Built(m, free, k.pages, k.free, {}, d)
    ensures r.Copied? ==> CopiedPage(m, k.pages, p, d, u) && UserSame(old(k.pages), k.pages, d)
    ensures r.Copied? ==> forall v: nat :: v < VPAGES && v != u ==> Entry(k.pages, d, v) == Entry(old(k.pages), d, v)
  {
    ParentState(m, free, k.pages, k.free, p, d);
    hide Built, Moves, UserSame, HeldSame, SameView, Lookup;
    var t := Walk(k, p, u, false, {});
    PresentParts(k.pages, p, u, t);
    if t == 0 {
      return Missing;
    }
    assert t in k.pages && |k.pages[t]| == NENTRIES;
    hide State, Entry, Has;
    var pte := k.pages[t][u % NENTRIES];
    if !Present(pte) {
      return Missing;
    }
    var from := FrameNo(pte);
    ParentFrame(m, free, k.pages, k.free, p, d, u, from);
    OddFlags(pte);
    r := CopyFrame(k, d, u, from, Flags(pte), m, free);
  }

  lemma OddFlags(w: nat)
    requires Present(w)
    ensures Flags(w) < 4096 && Flags(w) % 2 == 1
  {
  }

  lemma ParentState(m: Memory, free: seq<nat>, z: Memory, left: seq<nat>, p: nat, d: nat)
    requires Inv(m, free, p) && Built(m, free, z, left, {}, d)
    ensures State(z, left, {}, p) && forall v: nat :: v < VPAGES ==> Lookup(z, p, v) == Lookup(m, p, v)
  {
    assert forall g :: g in left ==> InPool(z, left, {}, d, g);
    Untouched(m, free, z, left, p);
  }

  /** The word a walk leads to is the entry. */
  lemma PresentParts(m: Memory, p: nat, u: nat, t: nat)
    ensures t == 0 && !Present(Word(m, p, u / NENTRIES)) ==> Lookup(m, p, u) == None
    ensures Has(m, p, Tab(u / NENTRIES), t) && t in m && |m[t]| == NENTRIES ==>
      var w := m[t][u % NENTRIES]; Lookup(m, p, u) == if Present(w) then Some(w) else None
  {
  }

  lemma ParentFrame(m: Memory, free: seq<nat>, z: Memory, left: seq<nat>, p: nat, d: nat, u: nat, from: nat)
    requires Inv(m, free, p) && Built(m, free, z, left, {}, d) && u < UPAGES
    requires Lookup(m, p, u).Some? && FrameNo(Lookup(m, p, u).value) == from
    ensures z.Keys == m.Keys && from in m && from !in free && z[from] == m[from]
  {
    assert Has(m, p, Usr(u), from);
  }

  /** kalloc, memmove and mappages for one page. */
  method CopyFrame(k: PhysMem, d: nat, u: nat, from: nat, flags: nat, ghost m: Memory, ghost free: seq<nat>) returns (r: PageCopy)
    requires k.Valid() && State(k.pages, k.free, {}, d) && Built(m, free, k.pages, k.free, {}, d)
    requires u < UPAGES && Entry(k.pages, d, u) == 0 && flags < 4096 && flags % 2 == 1
    requires from in m && from !in free && k.pages.Keys == m.Keys && k.pages[from] == m[from]
    modifies k
    ensures !r.Missing? && k.Valid() && State(k.pages, k.free, {}, d) && Built(m, free, k.pages, k.free, {}, d)
    ensures r.Copied? <==> PageCost(old(k.pages), d, u, true) <= |old(k.free)|
    ensures r.Copied? ==> Spent(old(k.pages), old(k.free), k.pages, k.free, d, u, true, 1)
    ensures r.Copied? ==> UserSame(old(k.pages), k.pages, d)
    ensures r.Copied? ==>
      && Lookup(k.pages, d, u).Some? && Flags(Lookup(k.pages, d, u).value) == flags
      && FrameNo(Lookup(k.pages, d, u).value) in k.pages && k.pages[FrameNo(Lookup(k.pages, d, u).value)] == m[from]
    ensures r.Copied? ==> forall v: nat :: v < VPAGES && v != u ==> Entry(k.pages, d, v) == Entry(old(k.pages), d, v)
  {
    hide State, Built, Moves, UserSame, HeldSame, SameView, Entry, Tabs;
    ghost var y0, free0 := k.pages, k.free;
    var f := NewFrame(k, d, k.pages[from]);
    if f == 0 {
      return NoFrames;
    }
    ghost var y, free1 := k.pages, k.free;
    BuiltOn(m, free, y0, free0, {}, y, free1, {f}, d);
    PteParts(f, flags);
    assert {f} - {f} == {};
    hide Pte, FrameNo, Flags;
    CopySame(y0, y, d, u);
    var o := MapPage(k, d, u, f, flags, {f});
    assert !o.Remap?;
    BuiltOn(m, free, y, free1, {f}, k.pages, k.free, if o.Mapped? then {} else {f}, d);
    if o.NoMemory? {
      GiveBack(k, d, f, m, free);
      return NoFrames;
    }
    CopyJoin(y0, y, k.pages, d, u, f);
    return Copied;
  }

  lemma CopySame(m: Memory, y: Memory, d: nat, u: nat)
    requires SameView(m, y, d) && u < VPAGES && Entry(m, d, u) == 0
    ensures !Present(Entry(y, d, u))
  {
  }

  lemma CopyJoin(y0: Memory, y: Memory, z: Memory, d: nat, u: nat, f: nat)
    requires SameView(y0, y, d) && UserSame(y0, y, d) && UserSame(y, z, d) && HeldSame(y, z, {f}) && y.Keys == y0.Keys
    requires forall v: nat :: v < VPAGES && v != u ==> Entry(z, d, v) == Entry(y, d, v)
    ensures UserSame(y0, z, d) && (f in y && f in z ==> z[f] == y[f])
    ensures forall v: nat :: v < VPAGES && v != u ==> Entry(z, d, v) == Entry(y0, d, v)
  {
    forall v, g | Has(y0, d, Usr(v), g) && Has(z, d, Usr(v), g) && g in y0 && g in z ensures z[g] == y0[g] {
      assert Has(y, d, Usr(v), g);
    }
  }

  method GiveBack(k: PhysMem, d: nat, f: nat, ghost m: Memory, ghost free: seq<nat>)
    requires k.Valid() && State(k.pages, k.free, {f}, d) && Built(m, free, k.pages, k.free, {f}, d)
    modifies k
    ensures k.Valid() && State(k.pages, k.free, {}, d) && Built(m, free, k.pages, k.free, {}, d)
  {
    ghost var y, mid := k.pages, k.free;
    k.FreeFrame(f);
    ghost var q: Page :| |q| == NENTRIES && k.pages == Over(y, f, q);
    GiveStep(y, mid, {f}, d, f, q);
    assert {f} - {f} == {};
    BuiltOn(m, free, y, mid, {f}, k.pages, k.free, {}, d);
  }

  /** The first u pages are copied; above them only the kernel is mapped. */
  ghost predicate CopyMap(m: Memory, z: Memory, p: nat, d: nat, rs: seq<Region>, u: nat) {
    forall v: nat :: v < VPAGES ==>
      if v < u && v < UPAGES then CopiedPage(m, z, p, d, v) else Entry(z, d, v) == KernelEntry(rs, v)
  }

  lemma CopyOn(m: Memory, y: Memory, z: Memory, p: nat, d: nat, rs: seq<Region>, u: nat)
    requires u < UPAGES && CopyMap(m, y, p, d, rs, u) && CopiedPage(m, z, p, d, u) && UserSame(y, z, d) && z.Keys == y.Keys
    requires forall v: nat :: v < VPAGES && v != u ==> Entry(z, d, v) == Entry(y, d, v)
    ensures CopyMap(m, z, p, d, rs, u + 1)
  {
    forall v: nat | v < u && v < UPAGES ensures CopiedPage(m, z, p, d, v) {
      assert Entry(z, d, v) == Entry(y, d, v);
      var g := FrameNo(Lookup(y, d, v).value);
      assert Has(y, d, Usr(v), g) && Has(z, d, Usr(v), g);
    }
  }

  lemma {:induction false} UserEmpty(rs: seq<Region>, v: nat)
    requires v < UPAGES && forall i :: 0 <= i < |rs| ==> RegionOk(rs[i])
    ensures KernelEntry(rs, v) == 0
  {
    NotCovered(rs, v);
  }

  /** Nothing the new table owns is the parent's. */
  lemma Independent(m: Memory, free: seq<nat>, z: Memory, left: seq<nat>, held: set<nat>, p: nat, d: nat)
    requires Inv(m, free, p) && Built(m, free, z, left, held, d)
    ensures Inv(z, left, p) && SameView(m, z, p)
    ensures forall g :: Owns(z, d, g) ==> !Owns(z, p, g)
    ensures forall g :: Owns(z, p, g) ==> g in m && g in z && z[g] == m[g]
  {
    assert forall g :: g in left ==> InPool(z, left, held, d, g);
    Untouched(m, free, z, left, p);
    hide Has;
    forall g | Owns(z, p, g) ensures g in m && g in z && g !in free && z[g] == m[g] {
      var r :| Has(z, p, r, g);
      assert Has(m, p, r, g);
    }
    forall g | Owns(z, d, g) ensures !Owns(z, p, g) {
      assert InPool(z, left, held, d, g);
    }
  }

  /** The frames a copy of the first u pages takes: the directory, the tables, and a page each. */
  function CopyCost(rs: seq<Region>, u: nat): nat { 1 + |KernelTabs(rs) + Spanned(0, u)| + u }

  ghost predicate CopyPaid(m: Memory, left: seq<nat>, free: seq<nat>, d: nat, rs: seq<Region>, u: nat) {
    Tabs(m, d) == KernelTabs(rs) + Spanned(0, u) && |left| + CopyCost(rs, u) == |free|
  }

  lemma CopyPaidFirst(m: Memory, left: seq<nat>, free: seq<nat>, d: nat, rs: seq<Region>)
    requires Tabs(m, d) == KernelTabs(rs) && |left| + 1 + |KernelTabs(rs)| == |free|
    ensures CopyPaid(m, left, free, d, rs, 0)
  {
    assert Spanned(0, 0) == {};
    assert KernelTabs(rs) + {} == KernelTabs(rs);
  }

  lemma PlusOne(a: set<nat>, b: set<nat>, x: nat)
    ensures |a + (b + {x})| == |a + b| + if x in a + b then 0 else 1
  {
    assert a + (b + {x}) == if x in a + b then a + b else (a + b) + {x};
  }

  lemma CopyCostNext(m: Memory, left: seq<nat>, free: seq<nat>, d: nat, rs: seq<Region>, u: nat)
    requires CopyPaid(m, left, free, d, rs, u) && u < VPAGES
    ensures CopyCost(rs, u + 1) == CopyCost(rs, u) + PageCost(m, d, u, true) && |left| + CopyCost(rs, u) == |free|
  {
    SpannedNext(0, u);
    assert u / NENTRIES in Tabs(m, d) <==> Present(Word(m, d, u / NENTRIES));
    hide Tabs, Spanned, KernelTabs, Present, Word;
    PlusOne(KernelTabs(rs), Spanned(0, u), u / NENTRIES);
  }

  lemma CopyPaidOn(y: Memory, mid: seq<nat>, z: Memory, left: seq<nat>, free: seq<nat>, d: nat, rs: seq<Region>, u: nat)
    requires CopyPaid(y, mid, free, d, rs, u) && Spent(y, mid, z, left, d, u, true, 1)
    ensures CopyPaid(z, left, free, d, rs, u + 1)
  {
    hide Tabs, Spanned, KernelTabs;
    SpannedNext(0, u);
    assert KernelTabs(rs) + Spanned(0, u + 1) == KernelTabs(rs) + Spanned(0, u) + {u / NENTRIES};
  }

  lemma CopyCostMono(rs: seq<Region>, u: nat, v: nat)
    requires u <= v
    ensures CopyCost(rs, u) <= CopyCost(rs, v)
  {
    assert Spanned(0, u) <= Spanned(0, v);
    hide Spanned, KernelTabs;
    SubsetCard(KernelTabs(rs) + Spanned(0, u), KernelTabs(rs) + Spanned(0, v));
  }

  /** Pages [0, u) are all mapped. */
  ghost predicate AllMapped(m: Memory, p: nat, u: nat) { forall v: nat :: v < u ==> Lookup(m, p, v).Some? }

  /** Page v is the first that is missing, and the frames suffice to get to it. */
  ghost predicate Misses(m: Memory, free: seq<nat>, p: nat, rs: seq<Region>, hi: nat, v: nat) {
    v < hi && AllMapped(m, p, v) && Lookup(m, p, v) == None && CopyCost(rs, v) <= |free|
  }

  lemma CopyShort(m: Memory, free: seq<nat>, p: nat, rs: seq<Region>, hi: nat, u: nat)
    requires u <= hi && AllMapped(m, p, u) && CopyCost(rs, u) > |free|
    ensures CopyCost(rs, hi) > |free| && forall v: nat :: !Misses(m, free, p, rs, hi, v)
  {
    hide Lookup, CopyCost;
    CopyCostMono(rs, u, hi);
    forall v: nat ensures !Misses(m, free, p, rs, hi, v) {
      if v >= u { CopyCostMono(rs, u, v); }
    }
  }

  /** copyuvm: the child maps the same pages of [0, sz) with the same flags and bytes, in
      frames that were free, or nothing is taken; the parent is as before. */
  method CopyUvm(k: PhysMem, p: nat, sz: nat, rs: seq<Region>) returns (d: nat, panic: bool)
    requires k.Valid() && Inv(k.pages, k.free, p) && sz <= KERNBASE && KmapOk(rs)
    modifies k
    ensures panic <==> exists v: nat :: Misses(old(k.pages), old(k.free), p, rs, PageUp(sz), v)
    ensures d != 0 <==> AllMapped(old(k.pages), p, PageUp(sz)) && CopyCost(rs, PageUp(sz)) <= |old(k.free)|
    ensures panic ==> d == 0
    ensures !panic ==> k.Valid() && Inv(k.pages, k.free, p) && SameView(old(k.pages), k.pages, p)
    ensures !panic && d == 0 ==> Restored(old(k.pages), old(k.free), k.pages, k.free)
    ensures !panic && d != 0 ==> State(k.pages, k.free, {}, d) && Built(old(k.pages), old(k.free), k.pages, k.free, {}, d)
    ensures !panic && d != 0 ==> CopyMap(old(k.pages), k.pages, p, d, rs, PageUp(sz))
    ensures !panic && d != 0 ==> forall g :: Owns(k.pages, d, g) ==> !Owns(k.pages, p, g)
  {
    hide AllMapped, Misses, CopyCost, CopyPaid, Tabs, KernelTabs, Spent, Lookup, Inv, Has;
    hide State, Moves, UserSame, Built, CopyMap, CopiedPage, Entry, SameView, Restored, KernelOnly;
    panic := false;
    ghost var m, free := k.pages, k.free;
    d := SetupKvm(k, rs);
    CopyNone(m, p, rs);
    if d == 0 {
      RestoredParent(m, free, k.pages, k.free, p);
      CopyShort(m, free, p, rs, PageUp(sz), 0);
      return 0, false;
    }
    var u := 0;
    CopyMapNone(m, k.pages, p, d, rs);
    CopyPaidFirst(k.pages, k.free, free, d, rs);
    while u * PGSIZE < sz
      invariant k.Valid() && State(k.pages, k.free, {}, d) && Built(m, free, k.pages, k.free, {}, d)
      invariant CopyMap(m, k.pages, p, d, rs, u) && u <= PageUp(sz)
      invariant CopyPaid(k.pages, k.free, free, d, rs, u) && AllMapped(m, p, u)
      decreases sz - u * PGSIZE
    {
      ghost var y, mid := k.pages, k.free;
      CopyMapEmpty(m, y, p, d, rs, u);
      BuiltKeys(m, free, y, mid, d);
      CopyCostNext(y, mid, free, d, rs, u);
      var r := CopyPage(k, p, d, u, m, free);
      if r.Missing? {
        MissesHere(m, free, p, rs, PageUp(sz), u);
        return 0, true;
      }
      PresentOn(m, p, u);
      BuiltKeys(m, free, k.pages, k.free, d);
      if r.NoFrames? {
        CopyShort(m, free, p, rs, PageUp(sz), u + 1);
        ghost var x, rest := k.pages, k.free;
        FreeVm(k, d);
        TornDown(m, free, x, rest, k.pages, k.free, d);
        RestoredParent(m, free, k.pages, k.free, p);
        return 0, false;
      }
      CopyOn(m, y, k.pages, p, d, rs, u);
      CopyPaidOn(y, mid, k.pages, k.free, free, d, rs, u);
      u := u + 1;
    }
    CopyEnough(m, k.pages, k.free, free, p, d, rs, u);
    Independent(m, free, k.pages, k.free, {}, p, d);
    return d, false;
  }

  lemma RestoredParent(m: Memory, free: seq<nat>, z: Memory, left: seq<nat>, p: nat)
    requires Restored(m, free, z, left) && Inv(m, free, p)
    ensures Inv(z, left, p) && SameView(m, z, p)
  {
    Untouched(m, free, z, left, p);
  }

  lemma BuiltKeys(m: Memory, free: seq<nat>, z: Memory, left: seq<nat>, d: nat)
    requires Built(m, free, z, left, {}, d)
    ensures z.Keys == m.Keys
  {
  }

  lemma CopyMapNone(m: Memory, z: Memory, p: nat, d: nat, rs: seq<Region>)
    requires KernelOnly(z, d, rs)
    ensures CopyMap(m, z, p, d, rs, 0)
  {
    hide Entry, CopiedPage, KernelEntry;
  }

  lemma CopyMapEmpty(m: Memory, y: Memory, p: nat, d: nat, rs: seq<Region>, u: nat)
    requires CopyMap(m, y, p, d, rs, u) && KmapOk(rs) && u < UPAGES
    ensures Entry(y, d, u) == 0
  {
    UserEmpty(rs, u);
    hide Entry, CopiedPage, KernelEntry;
  }

  lemma CopyNone(m: Memory, p: nat, rs: seq<Region>)
    ensures AllMapped(m, p, 0) && CopyCost(rs, 0) == 1 + |KernelTabs(rs)|
  {
    assert Spanned(0, 0) == {};
    assert KernelTabs(rs) + {} == KernelTabs(rs);
  }

  lemma PresentOn(m: Memory, p: nat, u: nat)
    requires AllMapped(m, p, u) && Lookup(m, p, u).Some?
    ensures AllMapped(m, p, u + 1)
  {
    hide Lookup;
  }

  lemma MissesHere(m: Memory, free: seq<nat>, p: nat, rs: seq<Region>, hi: nat, u: nat)
    requires u < hi && AllMapped(m, p, u) && Lookup(m, p, u) == None && CopyCost(rs, u) <= |free|
    ensures Misses(m, free, p, rs, hi, u) && !AllMapped(m, p, hi)
  {
    hide Lookup, CopyCost;
  }

  lemma CopyEnough(m: Memory, z: Memory, left: seq<nat>, free: seq<nat>, p: nat, d: nat, rs: seq<Region>, u: nat)
    requires AllMapped(m, p, u) && CopyPaid(z, left, free, d, rs, u)
    ensures CopyCost(rs, u) <= |free| && forall v: nat :: !Misses(m, free, p, rs, u, v)
  {
    hide Lookup, CopyCost;
  }
}
