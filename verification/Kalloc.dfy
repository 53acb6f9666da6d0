/** The page allocator of kalloc.c: a free list threaded through the free pages themselves. */
module Kalloc {
  import opened PageTable

  const KERNBASE: nat := 0x80000000
  const PGSIZE: nat := 4096
  const PHYSFRAMES: nat := 0xE000   // PHYSTOP / PGSIZE
  const JUNK: nat := 0x01010101

  /** The kernel virtual address of a frame. */
  function Kva(f: nat): nat { KERNBASE + f * PGSIZE }

  predicate NoDup(s: seq<nat>) { forall i, j :: 0 <= i < j < |s| ==> s[i] != s[j] }

  /** From head, next pointers in word 0 of each page lead through exactly the pages of free. */
  predicate Chain(m: Memory, head: nat, free: seq<nat>)
    decreases |free|
  {
    if free == [] then head == 0
    else head == Kva(free[0]) && free[0] in m && |m[free[0]]| == NENTRIES && Chain(m, m[free[0]][0], free[1..])
  }

  lemma {:induction false} ChainSame(m: Memory, z: Memory, head: nat, free: seq<nat>)
    requires Chain(m, head, free) && forall i :: 0 <= i < |free| ==> free[i] in z && free[i] in m && z[free[i]] == m[free[i]]
    ensures Chain(z, head, free)
    decreases |free|
  {
    if free != [] {
      assert z[free[0]] == m[free[0]];
      ChainSame(m, z, m[free[0]][0], free[1..]);
    }
  }

  // ---- freeing a page twice ----

  /** A chain that runs through the pages of a, which z has as m has them, comes to f. */
  lemma {:induction false} Follow(m: Memory, z: Memory, head: nat, a: seq<nat>, f: nat, b: seq<nat>, s: seq<nat>) returns (t: seq<nat>)
    requires Chain(m, head, a + [f] + b) && Chain(z, head, s)
    requires forall i :: 0 <= i < |a| ==> a[i] in m && a[i] in z && z[a[i]] == m[a[i]]
    ensures |t| <= |s| && Chain(z, Kva(f), t)
    decreases |a|
  {
    var free := a + [f] + b;
    if a == [] {
      t := s;
    } else {
      assert free[0] == a[0] && free[1..] == a[1..] + [f] + b;
      assert s != [] && s[0] == a[0];
      t := Follow(m, z, m[a[0]][0], a[1..], f, b, s[1..]);
    }
  }

  /** A page on the list whose next pointer is the head of the list: no chain from it ends. */
  lemma {:induction false} Endless(m: Memory, z: Memory, head: nat, a: seq<nat>, f: nat, b: seq<nat>, s: seq<nat>)
    requires Chain(m, head, a + [f] + b) && f in z && |z[f]| == NENTRIES && z[f][0] == head
    requires forall i :: 0 <= i < |a| ==> a[i] in m && a[i] in z && z[a[i]] == m[a[i]]
    ensures !Chain(z, Kva(f), s)
    decreases |s|
  {
    if Chain(z, Kva(f), s) {
      assert s != [] && s[0] == f;
      var t := Follow(m, z, head, a, f, b, s[1..]);
      Endless(m, z, head, a, f, b, t);
    }
  }

  lemma {:induction false} ChainPages(m: Memory, head: nat, free: seq<nat>, i: nat)
    requires Chain(m, head, free) && i < |free|
    ensures free[i] in m
    decreases i
  {
    if i > 0 { ChainPages(m, m[free[0]][0], free[1..], i - 1); }
  }

  /** So no list of free pages describes memory after a page has been freed twice. */
  lemma TwiceFreed(m: Memory, z: Memory, head: nat, free: seq<nat>, f: nat)
    requires Chain(m, head, free) && NoDup(free) && f in free && z.Keys == m.Keys
    requires f in z && |z[f]| == NENTRIES && z[f][0] == head && forall g :: g in m && g != f ==> z[g] == m[g]
    ensures forall s :: !Chain(z, Kva(f), s)
  {
    var i :| 0 <= i < |free| && free[i] == f;
    var a, b := free[..i], free[i + 1..];
    assert free == a + [f] + b;
    forall j | 0 <= j < |a| ensures a[j] in m && a[j] in z && z[a[j]] == m[a[j]] {
      ChainPages(m, head, free, j);
      assert free[j] != free[i];
    }
    forall s ensures !Chain(z, Kva(f), s) {
      Endless(m, z, head, a, f, b, s);
    }
  }

  /** The pages of [a, b) in the order freerange leaves them. */
  function Down(a: nat, b: nat): seq<nat>
    decreases b - a
  {
    if a < b then [b - 1] + Down(a, b - 1) else []
  }

  lemma DownNone(a: nat, b: nat)
    requires b <= a
    ensures Down(a, b) == []
  {
  }

  lemma DownMore(a: nat, b: nat)
    requires a <= b
    ensures Down(a, b + 1) == [b] + Down(a, b)
  {
  }

  lemma {:induction false} DownIn(a: nat, b: nat, f: nat)
    ensures f in Down(a, b) <==> a <= f < b
    decreases b - a
  {
    if a < b {
      DownIn(a, b - 1, f);
    }
  }

  class PhysMem {
    var pages: Memory
    var head: nat
    const lo: nat   // first frame after the kernel
    const hi: nat
    ghost var free: seq<nat>

    ghost predicate Valid()
      reads this
    {
      && 0 < lo <= hi <= PHYSFRAMES
      && (forall f :: f in pages <==> lo <= f < hi)
      && (forall f :: f in pages ==> |pages[f]| == NENTRIES)
      && Chain(pages, head, free) && NoDup(free)
      && forall f :: f in free ==> f in pages
    }

    /** No page is free until freerange gives it. */
    constructor (pages: Memory, lo: nat, hi: nat)
      requires 0 < lo <= hi <= PHYSFRAMES
      requires (forall f :: f in pages <==> lo <= f < hi) && forall f :: f in pages ==> |pages[f]| == NENTRIES
      ensures Valid() && free == [] && this.pages == pages && this.lo == lo && this.hi == hi
    {
      this.pages, this.lo, this.hi, head, free := pages, lo, hi, 0, [];
    }

    /** A store that leaves the free list alone. */
    method Write(f: nat, p: Page)
      requires Valid() && f in pages && f !in free && |p| == NENTRIES
      modifies this`pages
      ensures Valid() && pages == Over(old(pages), f, p)
    {
      ChainSame(pages, Over(pages, f, p), head, free);
      pages := Over(pages, f, p);
    }

    method Alloc() returns (v: nat)
      requires Valid()
      modifies this`head, this`free
      ensures Valid()
      ensures old(free) == [] ==> v == 0 && free == [] && head == old(head)
      ensures old(free) != [] ==> v == Kva(old(free)[0]) && old(free) == [old(free)[0]] + free && old(free)[0] !in free
    {
      v := head;
      if v != 0 {
        head := pages[(v - KERNBASE) / PGSIZE][0];
        assert free != [] && (v - KERNBASE) / PGSIZE == free[0];
        free := free[1..];
      }
    }

    /** kfree: panics on an address that is not one of its pages. It does not notice a page that
        is free already: then the list closes on itself and has no end. */
    method Free(v: nat) returns (panic: bool)
      requires Valid()
      modifies this
      ensures panic <==> v < KERNBASE || v % PGSIZE != 0 || !(lo <= (v - KERNBASE) / PGSIZE < hi)
      ensures panic ==> Valid() && pages == old(pages) && free == old(free)
      ensures !panic ==>
        var f := (v - KERNBASE) / PGSIZE;
        && v == Kva(f) && f in pages && (exists p: Page :: |p| == NENTRIES && pages == Over(old(pages), f, p))
        && |pages[f]| == NENTRIES && pages[f][0] == old(head) && (forall k :: 0 < k < NENTRIES ==> pages[f][k] == JUNK)
        && if f in old(free) then forall s :: !Chain(pages, head, s) else Valid() && free == [f] + old(free)
    {
      if v % PGSIZE != 0 || v < Kva(lo) || v >= Kva(hi) {
        return true;
      }
      var f := (v - KERNBASE) / PGSIZE;
      var junk: Page := seq(NENTRIES, _ => JUNK);
      var p := Put(junk, 0, head);
      if f in free {
        TwiceFreed(pages, Over(pages, f, p), head, free, f);
      } else {
        ChainSame(pages, Over(pages, f, p), head, free);
      }
      pages := Over(pages, f, p);
      free := [f] + free;
      assert free[1..] == old(free);
      head := v;
      return false;
    }

    /** kfree of a page that is in use */
    method FreeFrame(f: nat)
      requires Valid() && f in pages && f !in free
      modifies this
      ensures Valid() && free == [f] + old(free)
      ensures exists p: Page :: |p| == NENTRIES && pages == Over(old(pages), f, p)
      ensures pages[f][0] == old(head) && forall k :: 0 < k < NENTRIES ==> pages[f][k] == JUNK
    {
      PageFits(f, KERNBASE);
      var panic := Free(Kva(f));
    }

    /** freerange: every whole page of [vstart, vend) */
    method FreeRange(vstart: nat, vend: nat)
      requires Valid() && Kva(lo) <= vstart <= vend <= Kva(hi)
      requires forall f :: f in free ==> !(vstart <= Kva(f) < vend)
      modifies this
      ensures Valid() && free == Down((vstart - KERNBASE + PGSIZE - 1) / PGSIZE, (vend - KERNBASE) / PGSIZE) + old(free)
    {
      hide NoDup, Chain, Down;
      var a := (vstart - KERNBASE + PGSIZE - 1) / PGSIZE;
      ghost var b := (vend - KERNBASE) / PGSIZE;
      var p := Kva(a);
      var n: nat := a;
      PageFits(a, vend);
      DownNone(a, a);
      assert Down(a, a) + free == free;
      while p + PGSIZE <= vend
        invariant Valid() && p == Kva(n) && a <= n && (n > a ==> n <= b)
        invariant p + PGSIZE <= vend <==> n < b
        invariant free == Down(a, n) + old(free)
        decreases b - n
      {
        assert n in pages && n !in free by {
          DownIn(a, n, n);
          RangeFrame(n, lo, hi, vstart, vend);
        }
        FreeFrame(n);
        DownMore(a, n);
        assert Down(a, n + 1) + old(free) == [n] + (Down(a, n) + old(free));
        p := p + PGSIZE;
        n := n + 1;
        PageFits(n, vend);
      }
      assert Down(a, n) == Down(a, b) by { if n > b { DownNone(a, b); } }
    }
  }

  lemma RangeFrame(n: nat, lo: nat, hi: nat, vstart: nat, vend: nat)
    requires Kva(lo) <= vstart <= vend <= Kva(hi)
    requires (vstart - KERNBASE + PGSIZE - 1) / PGSIZE <= n < (vend - KERNBASE) / PGSIZE
    ensures lo <= n < hi && vstart <= Kva(n) < vend
  {
  }

  lemma PageFits(n: nat, vend: nat)
    requires vend >= KERNBASE
    ensures Kva(n) + PGSIZE <= vend <==> n < (vend - KERNBASE) / PGSIZE
    ensures Kva(n) % PGSIZE == 0 && (Kva(n) - KERNBASE) / PGSIZE == n
  {
  }
}
