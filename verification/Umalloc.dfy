/** The Kernighan and Ritchie allocator of umalloc.c.

    Addresses count header-sized units; 0 is the null pointer and BASE the static list head
    `base`, which lies below the heap.  A heap is seen as its free list in address order,
    its live blocks, and the set of units obtained from sbrk. */
module Umalloc {

  const BASE: nat := 1
  const TWO32: nat := 0x1_0000_0000

  /** A block of n units whose header is at a. */
  datatype Blk = Blk(a: nat, n: nat)

  datatype Heap = Heap(fl: seq<Blk>, live: map<nat, nat>, arena: set<nat>)

  predicate Covers(b: Blk, u: nat) { b.a <= u < b.a + b.n }

  /** Sorted by address and disjoint. */
  ghost predicate Ordered(fl: seq<Blk>) {
    forall i, j :: 0 <= i < j < |fl| ==> fl[i].a + fl[i].n <= fl[j].a && fl[i].a < fl[j].a
  }

  predicate GapAt(fl: seq<Blk>, i: nat) {
    i + 1 < |fl| ==> fl[i].a + fl[i].n < fl[i+1].a
  }

  /** Neighbours do not touch, except perhaps at the given positions: nothing is left to coalesce. */
  ghost predicate Gaps(fl: seq<Blk>, skip: set<nat>) {
    forall i: nat :: i < |fl| && i !in skip ==> GapAt(fl, i)
  }

  ghost predicate InFree(fl: seq<Blk>, u: nat) {
    exists i :: 0 <= i < |fl| && Covers(fl[i], u)
  }

  ghost predicate InLive(live: map<nat, nat>, u: nat) {
    exists a :: a in live && Covers(LiveBlk(live, a), u)
  }

  ghost predicate Apart(x: Blk, y: Blk) {
    x.a + x.n <= y.a || y.a + y.n <= x.a
  }

  ghost predicate Sized(fl: seq<Blk>) {
    |fl| >= 1 && fl[0] == Blk(BASE, 0) && forall i :: 1 <= i < |fl| ==> fl[i].n >= 1
  }

  ghost predicate FreeList(fl: seq<Blk>) {
    Sized(fl) && Ordered(fl) && Gaps(fl, {})
  }

  /** A block keeps clear of the list. */
  ghost predicate Clear(fl: seq<Blk>, b: Blk) {
    b.a > BASE && b.n >= 1 && forall i :: 0 <= i < |fl| ==> Apart(fl[i], b)
  }

  function LiveBlk(live: map<nat, nat>, a: nat): Blk
    requires a in live
  {
    Blk(a, live[a])
  }

  /** Live blocks overlap neither each other nor free blocks. */
  ghost predicate LiveInv(fl: seq<Blk>, live: map<nat, nat>) {
    && (forall a :: a in live ==> Clear(fl, LiveBlk(live, a)))
    && (forall a, b :: a in live && b in live && a != b ==> Apart(LiveBlk(live, a), LiveBlk(live, b)))
  }

  /** Free and live blocks make up exactly what sbrk gave. */
  ghost predicate Partition(h: Heap) {
    forall u :: u in h.arena <==> InFree(h.fl, u) || InLive(h.live, u)
  }

  ghost predicate HeapInv(h: Heap) {
    FreeList(h.fl) && LiveInv(h.fl, h.live) && Partition(h)
  }

  // ---- freeing: insertion into the ordered list ----

  /** b belongs between positions k and k+1 of the list. */
  predicate Between(fl: seq<Blk>, k: nat, b: nat) {
    k < |fl| && fl[k].a < b && (k + 1 < |fl| ==> b < fl[k+1].a)
  }

  function Put(fl: seq<Blk>, k: nat, b: Blk): (r: seq<Blk>)
    requires k < |fl|
    ensures |r| == |fl| + 1
    ensures forall i :: 0 <= i < |r| ==> r[i] == if i <= k then fl[i] else if i == k + 1 then b else fl[i-1]
  {
    fl[..k+1] + [b] + fl[k+1..]
  }

  predicate Touches(fl: seq<Blk>, i: nat) {
    i + 1 < |fl| && fl[i].a + fl[i].n == fl[i+1].a
  }

  /** Merge position i with its successor if they touch. */
  function Merge(fl: seq<Blk>, i: nat): (r: seq<Blk>)
    ensures !Touches(fl, i) ==> r == fl
    ensures Touches(fl, i) ==> |r| == |fl| - 1
    ensures Touches(fl, i) ==> forall j :: 0 <= j < |r| ==>
      r[j] == if j < i then fl[j] else if j == i then Blk(fl[i].a, fl[i].n + fl[i+1].n) else fl[j+1]
  {
    if Touches(fl, i) then fl[..i] + [Blk(fl[i].a, fl[i].n + fl[i+1].n)] + fl[i+2..] else fl
  }

  /** The list with b put in after position k and merged with the neighbours it touches. */
  function Insert(fl: seq<Blk>, k: nat, b: Blk): seq<Blk>
    requires k < |fl|
  {
    Merge(Merge(Put(fl, k, b), k + 1), k)
  }

  lemma PutOrdered(fl: seq<Blk>, k: nat, b: Blk)
    requires Ordered(fl) && Between(fl, k, b.a) && b.n >= 1 && forall i :: 0 <= i < |fl| ==> Apart(fl[i], b)
    ensures Ordered(Put(fl, k, b))
  {
    forall i | 0 <= i <= k ensures fl[i].a + fl[i].n <= b.a && fl[i].a < b.a { assert Apart(fl[i], b); }
    forall i | k < i < |fl| ensures b.a + b.n <= fl[i].a { assert Apart(fl[i], b); }
  }

  lemma PutGaps(fl: seq<Blk>, k: nat, b: Blk)
    requires k < |fl| && Gaps(fl, {})
    ensures Gaps(Put(fl, k, b), {k, k + 1})
  {
    var r := Put(fl, k, b);
    forall i: nat | i < |r| && i != k && i != k + 1 ensures GapAt(r, i) {
      if i < k { assert GapAt(fl, i); } else { assert GapAt(fl, i - 1); }
    }
  }

  lemma OrderedMerge(fl: seq<Blk>, i: nat)
    requires Ordered(fl)
    ensures Ordered(Merge(fl, i))
  {
    var r := Merge(fl, i);
    if Touches(fl, i) {
      forall x, y | 0 <= x < y < |r| ensures r[x].a + r[x].n <= r[y].a && r[x].a < r[y].a {
        var x', y' := if x < i then x else x + 1, if y <= i then y else y + 1;
        assert r[x].a + r[x].n == fl[x'].a + fl[x'].n && r[y].a == fl[y'].a;
        assert x == i ==> fl[i].a < fl[y'].a;
      }
    }
  }

  lemma MergeSized(fl: seq<Blk>, i: nat)
    requires Sized(fl) && (i > 0 || !Touches(fl, i))
    ensures Sized(Merge(fl, i))
  {
  }

  lemma MergeGap(fl: seq<Blk>, i: nat, j: nat)
    requires Ordered(fl) && Touches(fl, i) && GapAt(fl, if j < i then j else j + 1)
    ensures GapAt(Merge(fl, i), j)
  {
  }

  lemma MergeGaps(fl: seq<Blk>, i: nat, skip: set<nat>)
    requires Ordered(fl) && Gaps(fl, skip) && i in skip && forall x :: x in skip ==> x <= i
    ensures Gaps(Merge(fl, i), skip - {i})
  {
    var r := Merge(fl, i);
    forall j: nat | j < |r| && j !in skip - {i} ensures GapAt(r, j) {
      if Touches(fl, i) { MergeGap(fl, i, j); }
    }
  }

  lemma InsertOk(fl: seq<Blk>, k: nat, b: Blk)
    requires FreeList(fl) && Between(fl, k, b.a) && b.n >= 1
    requires forall i :: 0 <= i < |fl| ==> Apart(fl[i], b)
    ensures FreeList(Insert(fl, k, b))
  {
    PutOrdered(fl, k, b);
    PutGaps(fl, k, b);
    var r := Put(fl, k, b);
    OrderedMerge(r, k + 1);
    MergeSized(r, k + 1);
    MergeGaps(r, k + 1, {k, k + 1});
    assert {k, k + 1} - {k + 1} == {k} && {k} - {k} == {};
    OrderedMerge(Merge(r, k + 1), k);
    MergeSized(Merge(r, k + 1), k);
    MergeGaps(Merge(r, k + 1), k, {k});
  }

  lemma MergeCovers(fl: seq<Blk>, i: nat, u: nat)
    ensures InFree(Merge(fl, i), u) <==> InFree(fl, u)
  {
    var r := Merge(fl, i);
    if Touches(fl, i) {
      if InFree(fl, u) {
        var j :| 0 <= j < |fl| && Covers(fl[j], u);
        assert Covers(r[if j <= i then j else j - 1], u);
      }
      if InFree(r, u) {
        var j :| 0 <= j < |r| && Covers(r[j], u);
        assert j != i ==> Covers(fl[if j < i then j else j + 1], u);
        assert j == i ==> Covers(fl[i], u) || Covers(fl[i+1], u);
      }
    }
  }

  lemma InsertCovers(fl: seq<Blk>, k: nat, b: Blk, u: nat)
    requires k < |fl|
    ensures InFree(Insert(fl, k, b), u) <==> InFree(fl, u) || Covers(b, u)
  {
    var r := Put(fl, k, b);
    assert r[k+1] == b;
    if InFree(fl, u) {
      var j :| 0 <= j < |fl| && Covers(fl[j], u);
      assert Covers(r[if j <= k then j else j + 1], u);
    }
    MergeCovers(r, k + 1, u);
    MergeCovers(Merge(r, k + 1), k, u);
  }

  /** Freed or new memory overlaps nothing else, so the result keeps clear of what b kept clear of. */
  lemma InsertApart(fl: seq<Blk>, k: nat, b: Blk, x: Blk)
    requires FreeList(fl) && Between(fl, k, b.a)
    requires forall i :: 0 <= i < |fl| ==> Apart(fl[i], x)
    requires Apart(b, x) && x.n >= 1
    ensures forall i :: 0 <= i < |Insert(fl, k, b)| ==> Apart(Insert(fl, k, b)[i], x)
  {
    var r := Put(fl, k, b);
    assert forall i :: 0 <= i < |r| ==> Apart(r[i], x);
    MergeApart(r, k + 1, x);
    MergeApart(Merge(r, k + 1), k, x);
  }

  lemma MergeApart(fl: seq<Blk>, i: nat, x: Blk)
    requires forall j :: 0 <= j < |fl| ==> Apart(fl[j], x)
    requires x.n >= 1
    ensures forall j :: 0 <= j < |Merge(fl, i)| ==> Apart(Merge(fl, i)[j], x)
  {
    if Touches(fl, i) { assert Apart(fl[i], x) && Apart(fl[i+1], x); }
  }

  // ---- the three ways the heap changes ----

  function FreeHeap(h: Heap, k: nat, b: nat): Heap
    requires k < |h.fl| && b in h.live
  {
    Heap(Insert(h.fl, k, Blk(b, h.live[b])), h.live - {b}, h.arena)
  }

  lemma LiveWithout(live: map<nat, nat>, b: nat, u: nat)
    requires b in live
    ensures InLive(live, u) <==> InLive(live - {b}, u) || Covers(LiveBlk(live, b), u)
  {
    if InLive(live, u) {
      var a :| a in live && Covers(LiveBlk(live, a), u);
      assert a == b || a in live - {b};
    }
    if InLive(live - {b}, u) {
      var a :| a in live - {b} && Covers(LiveBlk(live - {b}, a), u);
      assert a in live;
    }
  }

  /** free() of a live block keeps the heap in order, wherever the block lies. */
  lemma FreeKeeps(h: Heap, k: nat, b: nat)
    requires HeapInv(h) && b in h.live && Between(h.fl, k, b)
    ensures HeapInv(FreeHeap(h, k, b))
  {
    hide Insert;
    var x, r := Blk(b, h.live[b]), FreeHeap(h, k, b);
    assert x == LiveBlk(h.live, b);
    InsertOk(h.fl, k, x);
    forall a | a in r.live ensures Clear(r.fl, LiveBlk(r.live, a)) {
      assert a in h.live && a != b && LiveBlk(r.live, a) == LiveBlk(h.live, a);
      InsertApart(h.fl, k, x, LiveBlk(h.live, a));
    }
    forall a, c | a in r.live && c in r.live && a != c ensures Apart(LiveBlk(r.live, a), LiveBlk(r.live, c)) {
      assert LiveBlk(r.live, a) == LiveBlk(h.live, a) && LiveBlk(r.live, c) == LiveBlk(h.live, c);
    }
    forall u: nat ensures u in r.arena <==> InFree(r.fl, u) || InLive(r.live, u) {
      InsertCovers(h.fl, k, x, u);
      LiveWithout(h.live, b, u);
    }
  }

  function Units(b: Blk): set<nat> { set u: nat | b.a <= u < b.a + b.n && Covers(b, u) }

  /** A region fresh from sbrk, as a live block about to be freed. */
  function GrowHeap(h: Heap, b: Blk): Heap {
    Heap(h.fl, h.live[b.a := b.n], h.arena + Units(b))
  }

  /** Every block of the heap lies below the break. */
  lemma BlocksBelow(h: Heap, brk: nat)
    requires HeapInv(h) && BASE < brk && forall u :: u in h.arena ==> u < brk
    ensures forall i :: 0 <= i < |h.fl| ==> h.fl[i].a + h.fl[i].n <= brk
    ensures forall a :: a in h.live ==> a + h.live[a] <= brk
  {
    forall i | 0 <= i < |h.fl| ensures h.fl[i].a + h.fl[i].n <= brk {
      var b := h.fl[i];
      if b.n > 0 { assert Covers(b, b.a + b.n - 1); assert InFree(h.fl, b.a + b.n - 1); }
    }
    forall a | a in h.live ensures a + h.live[a] <= brk {
      assert Clear(h.fl, LiveBlk(h.live, a));
      assert Covers(LiveBlk(h.live, a), a + h.live[a] - 1);
      assert InLive(h.live, a + h.live[a] - 1);
    }
  }

  lemma AddLive(fl: seq<Blk>, live: map<nat, nat>, x: Blk)
    requires LiveInv(fl, live) && x.a !in live && Clear(fl, x)
    requires forall a :: a in live ==> Apart(LiveBlk(live, a), x)
    ensures LiveInv(fl, live[x.a := x.n])
    ensures forall u :: InLive(live[x.a := x.n], u) <==> InLive(live, u) || Covers(x, u)
  {
    var r := live[x.a := x.n];
    assert LiveBlk(r, x.a) == x;
    forall a | a in live ensures LiveBlk(r, a) == LiveBlk(live, a) {}
    assert r - {x.a} == live;
    forall u: nat ensures InLive(r, u) <==> InLive(live, u) || Covers(x, u) { LiveWithout(r, x.a, u); }
  }

  lemma GrowKeeps(h: Heap, b: Blk, brk: nat)
    requires HeapInv(h) && BASE < brk <= b.a && b.n >= 1 && forall u :: u in h.arena ==> u < brk
    ensures b.a !in h.live && HeapInv(GrowHeap(h, b))
  {
    BlocksBelow(h, brk);
    forall a | a in h.live ensures Apart(LiveBlk(h.live, a), b) && a < b.a {
      assert Clear(h.fl, LiveBlk(h.live, a));
    }
    AddLive(h.fl, h.live, b);
    var r := GrowHeap(h, b);
    forall u: nat ensures u in r.arena <==> InFree(r.fl, u) || InLive(r.live, u) {}
  }

  /** malloc takes the whole block, or its tail end. */
  function TakeList(fl: seq<Blk>, j: nat, n: nat): (r: seq<Blk>)
    requires j < |fl| && n <= fl[j].n
    ensures n < fl[j].n ==> r == fl[j := Blk(fl[j].a, fl[j].n - n)]
    ensures n == fl[j].n ==> |r| == |fl| - 1
    ensures n == fl[j].n ==> forall i :: 0 <= i < |r| ==> r[i] == fl[if i < j then i else i + 1]
  {
    if fl[j].n == n then fl[..j] + fl[j+1..] else fl[j := Blk(fl[j].a, fl[j].n - n)]
  }

  function Taken(fl: seq<Blk>, j: nat, n: nat): Blk
    requires j < |fl| && n <= fl[j].n
  {
    Blk(fl[j].a + fl[j].n - n, n)
  }

  function TakeHeap(h: Heap, j: nat, n: nat): Heap
    requires j < |h.fl| && n <= h.fl[j].n
  {
    Heap(TakeList(h.fl, j, n), h.live[Taken(h.fl, j, n).a := n], h.arena)
  }

  lemma TakeListOk(fl: seq<Blk>, j: nat, n: nat)
    requires FreeList(fl) && 1 <= j < |fl| && 1 <= n <= fl[j].n
    ensures FreeList(TakeList(fl, j, n))
  {
    var r := TakeList(fl, j, n);
    forall i: nat | i < |r| ensures GapAt(r, i) {
      assert GapAt(fl, i);
      if n == fl[j].n && i + 1 < |fl| { assert GapAt(fl, i + 1); }
    }
  }

  lemma TakeCovers(fl: seq<Blk>, j: nat, n: nat, u: nat)
    requires j < |fl| && 1 <= n <= fl[j].n
    ensures InFree(fl, u) <==> InFree(TakeList(fl, j, n), u) || Covers(Taken(fl, j, n), u)
  {
    var r := TakeList(fl, j, n);
    var whole := n == fl[j].n;
    if InFree(fl, u) {
      var i :| 0 <= i < |fl| && Covers(fl[i], u);
      var i' := if whole && i > j then i - 1 else i;
      if i != j { assert r[i'] == fl[i]; }
      else if !Covers(Taken(fl, j, n), u) { assert Covers(r[j], u); }
    }
    if InFree(r, u) {
      var i :| 0 <= i < |r| && Covers(r[i], u);
      var i' := if whole && i >= j then i + 1 else i;
      assert Covers(fl[i'], u);
    }
    if Covers(Taken(fl, j, n), u) { assert Covers(fl[j], u); }
  }

  lemma TakeApart(fl: seq<Blk>, j: nat, n: nat, x: Blk)
    requires 1 <= j < |fl| && 1 <= n <= fl[j].n
    requires forall i :: 0 <= i < |fl| ==> Apart(fl[i], x)
    ensures forall i :: 0 <= i < |TakeList(fl, j, n)| ==> Apart(TakeList(fl, j, n)[i], x)
    ensures Apart(x, Taken(fl, j, n))
  {
    assert Apart(fl[j], x);
  }

  lemma TakenApart(fl: seq<Blk>, j: nat, n: nat)
    requires FreeList(fl) && 1 <= j < |fl| && 1 <= n <= fl[j].n
    ensures Clear(TakeList(fl, j, n), Taken(fl, j, n))
  {
    var r := TakeList(fl, j, n);
    forall i | 0 <= i < |r| ensures Apart(r[i], Taken(fl, j, n)) {
      var i' := if n == fl[j].n && i >= j then i + 1 else i;
      assert i' != j ==> Apart(fl[i'], fl[j]);
    }
  }

  /** malloc() from a free block keeps the heap in order; the new live block was free before. */
  lemma TakeKeeps(h: Heap, j: nat, n: nat)
    requires HeapInv(h) && 1 <= j < |h.fl| && 1 <= n <= h.fl[j].n
    ensures Taken(h.fl, j, n).a !in h.live && HeapInv(TakeHeap(h, j, n))
  {
    hide TakeList;
    var x, r := Taken(h.fl, j, n), TakeHeap(h, j, n);
    forall a | a in h.live ensures Apart(LiveBlk(h.live, a), x) && Clear(r.fl, LiveBlk(h.live, a)) {
      assert Clear(h.fl, LiveBlk(h.live, a));
      TakeApart(h.fl, j, n, LiveBlk(h.live, a));
    }
    TakeListOk(h.fl, j, n);
    TakenApart(h.fl, j, n);
    AddLive(r.fl, h.live, x);
    forall u: nat ensures u in r.arena <==> InFree(r.fl, u) || InLive(r.live, u) {
      TakeCovers(h.fl, j, n, u);
    }
  }

  // ---- the list in memory ----

  function Next(fl: seq<Blk>, i: nat): nat {
    if i + 1 < |fl| then i + 1 else 0
  }

  ghost predicate LinkAt(ptr: map<nat, nat>, size: map<nat, nat>, fl: seq<Blk>, i: nat) {
    && i < |fl| && fl[i].a in ptr && fl[i].a in size
    && ptr[fl[i].a] == fl[Next(fl, i)].a && size[fl[i].a] == fl[i].n
  }

  /** Following s.ptr goes once round the list in address order, and s.size gives the sizes. */
  ghost predicate Chain(ptr: map<nat, nat>, size: map<nat, nat>, fl: seq<Blk>) {
    forall i: nat :: i < |fl| ==> LinkAt(ptr, size, fl, i)
  }

  ghost predicate LiveSizes(size: map<nat, nat>, live: map<nat, nat>) {
    forall a :: a in live ==> a in size && size[a] == live[a]
  }

  lemma PutChain(ptr: map<nat, nat>, size: map<nat, nat>, fl: seq<Blk>, k: nat, b: Blk)
    requires Ordered(fl) && Chain(ptr, size, fl) && Between(fl, k, b.a)
    requires LinkAt(ptr, size, fl, k)
    ensures Chain(ptr[b.a := ptr[fl[k].a]][fl[k].a := b.a], size[b.a := b.n], Put(fl, k, b))
  {
    var r := Put(fl, k, b);
    var ptr', size' := ptr[b.a := ptr[fl[k].a]][fl[k].a := b.a], size[b.a := b.n];
    forall i: nat | i < |r| ensures LinkAt(ptr', size', r, i) {
      if i != k + 1 {
        var i' := if i <= k then i else i - 1;
        assert LinkAt(ptr, size, fl, i');
        assert r[i] == fl[i'];
        assert i' < k ==> fl[i'].a < fl[k].a;
        assert i' > k ==> fl[k+1].a <= fl[i'].a;
      }
    }
  }

  lemma MergeChain(ptr: map<nat, nat>, size: map<nat, nat>, fl: seq<Blk>, i: nat)
    requires Ordered(fl) && Chain(ptr, size, fl) && Touches(fl, i)
    requires LinkAt(ptr, size, fl, i) && LinkAt(ptr, size, fl, i + 1)
    ensures var x, y := fl[i], fl[i+1];
      Chain(ptr[x.a := ptr[y.a]], size[x.a := size[x.a] + size[y.a]], Merge(fl, i))
  {
    var r, x, y := Merge(fl, i), fl[i], fl[i+1];
    var ptr', size' := ptr[x.a := ptr[y.a]], size[x.a := size[x.a] + size[y.a]];
    forall j: nat | j < |r| ensures LinkAt(ptr', size', r, j) {
      if j != i {
        var j' := if j < i then j else j + 1;
        assert LinkAt(ptr, size, fl, j');
        assert r[j] == fl[j'];
        assert j' < i ==> fl[j'].a < x.a;
        assert j' > i ==> x.a < fl[j'].a;
      }
    }
  }

  lemma TakeAllChain(ptr: map<nat, nat>, size: map<nat, nat>, fl: seq<Blk>, j: nat)
    requires Ordered(fl) && Chain(ptr, size, fl) && 1 <= j < |fl|
    requires LinkAt(ptr, size, fl, j)
    ensures Chain(ptr[fl[j-1].a := ptr[fl[j].a]], size, TakeList(fl, j, fl[j].n))
  {
    var r := TakeList(fl, j, fl[j].n);
    var ptr' := ptr[fl[j-1].a := ptr[fl[j].a]];
    forall i: nat | i < |r| ensures LinkAt(ptr', size, r, i) {
      var i' := if i < j then i else i + 1;
      assert LinkAt(ptr, size, fl, i');
      assert r[i] == fl[i'];
      assert i' < j - 1 ==> fl[i'].a < fl[j-1].a;
      assert i' > j - 1 ==> fl[j-1].a < fl[i'].a;
    }
  }

  lemma TakeTailChain(ptr: map<nat, nat>, size: map<nat, nat>, fl: seq<Blk>, j: nat, n: nat)
    requires Ordered(fl) && Chain(ptr, size, fl) && 1 <= j < |fl| && 1 <= n < fl[j].n
    ensures Chain(ptr, size[fl[j].a := fl[j].n - n][Taken(fl, j, n).a := n], TakeList(fl, j, n))
  {
    var r := TakeList(fl, j, n);
    var size' := size[fl[j].a := fl[j].n - n][Taken(fl, j, n).a := n];
    forall i: nat | i < |r| ensures LinkAt(ptr, size', r, i) {
      assert LinkAt(ptr, size, fl, i);
      assert r[i].a == fl[i].a && r[Next(r, i)].a == fl[Next(fl, i)].a;
      assert i < j ==> fl[i].a < fl[j].a;
      assert i > j ==> fl[j].a + fl[j].n <= fl[i].a;
    }
  }

  // ---- the search loops ----

  /** The steps from position k round to position t. */
  function Dist(k: nat, t: nat, n: nat): nat
    requires k < n && t < n
  {
    if k <= t then t - k else t + n - k
  }

  lemma {:induction false} FindSlot(fl: seq<Blk>, b: nat) returns (t: nat)
    requires |fl| >= 1 && Ordered(fl) && fl[0].a < b && forall i :: 0 <= i < |fl| ==> fl[i].a != b
    ensures Between(fl, t, b)
  {
    t := 0;
    while t + 1 < |fl| && fl[t+1].a < b
      invariant t < |fl| && fl[t].a < b
    {
      t := t + 1;
    }
  }

  lemma SlotFor(h: Heap, b: nat) returns (t: nat)
    requires HeapInv(h) && b in h.live
    ensures Between(h.fl, t, b)
  {
    assert Clear(h.fl, LiveBlk(h.live, b));
    forall i | 0 <= i < |h.fl| ensures h.fl[i].a != b { assert Apart(h.fl[i], LiveBlk(h.live, b)); }
    t := FindSlot(h.fl, b);
  }

  /** nunits in malloc, with the 32-bit wrap-around of nbytes + sizeof(Header) - 1. */
  function NUnits(nbytes: nat): nat {
    (nbytes + 7) % TWO32 / 8 + 1
  }

  /** The block has room for nbytes after its header. */
  predicate Roomy(nbytes: nat) { 8 * (NUnits(nbytes) - 1) >= nbytes }

  /** The units morecore asks for, and their size in bytes before it is cut to an int. */
  function Asked(nunits: nat): nat { if nunits < 4096 then 4096 else nunits }
  function AskedBytes(nunits: nat): nat { 8 * Asked(nunits) }

  const KERNBASE: nat := 0x8000_0000

  /** A 32-bit word read as an int. */
  function Signed(n: nat): int { if n < 0x8000_0000 then n else n - TWO32 }

  datatype Growth = Refused | Size(sz: nat)

  /** growproc on a process of sz bytes, for the word n; mem says whether allocuvm finds memory.
      A negative n that reaches below zero wraps, and deallocuvm leaves the size alone. */
  function Growproc(sz: nat, n: nat, mem: bool): Growth {
    if Signed(n) > 0 then
      if mem && sz + n < KERNBASE then Size(sz + n) else Refused
    else if Signed(n) < 0 then
      var to := (sz + n) % TWO32;
      var left := if to >= sz then sz else to;
      if left == 0 then Refused else Size(left)
    else Size(sz)
  }

  /** sbrk gives as many bytes as morecore counts on only below 2 GB, whatever memory there is. */
  lemma GrowsIff(sz: nat, ask: nat, mem: bool)
    requires 0 < sz < KERNBASE && 0 < ask <= TWO32
    ensures Growproc(sz, ask % TWO32, mem) == Size(sz + ask) <==> mem && ask < 0x8000_0000 && sz + ask < KERNBASE
    ensures ask >= 0x8000_0000 && Growproc(sz, ask % TWO32, mem).Size? ==> Growproc(sz, ask % TWO32, mem).sz <= sz
  {
    if ask == TWO32 {
      assert ask % TWO32 == 0;
    } else {
      assert ask % TWO32 == ask;
    }
  }

  /** A negative count shrinks the process by so many bytes; one that would leave nothing fails, and
      one that is larger than the process leaves it alone. */
  lemma ShrinksBy(sz: nat, less: nat, mem: bool)
    requires 0 < sz < KERNBASE && 0 < less <= 0x8000_0000
    ensures Growproc(sz, TWO32 - less, mem) == if less < sz then Size(sz - less) else if less == sz then Refused else Size(sz)
  {
  }

  /** morecore's argument to sbrk stays positive. */
  predicate Backed(nbytes: nat) { AskedBytes(NUnits(nbytes)) < 0x8000_0000 }

  lemma BackedIff(nbytes: nat)
    requires nbytes < TWO32
    ensures Backed(nbytes) <==> nbytes <= 0x7FFF_FFF0 || nbytes + 7 >= TWO32
    ensures AskedBytes(NUnits(nbytes)) <= TWO32
  {
    if nbytes + 7 >= TWO32 {
      assert (nbytes + 7) % TWO32 == nbytes + 7 - TWO32;
    }
  }

  /** A request is served with memory that is there and large enough exactly up to 0x7FFFFFF0
      bytes: above, the int sbrk gets is not positive, and at the very top the sum wraps to a
      block of one unit. */
  lemma ServedIff(nbytes: nat)
    requires nbytes < TWO32
    ensures Roomy(nbytes) && Backed(nbytes) <==> nbytes <= 0x7FFF_FFF0
    ensures Roomy(nbytes) <==> nbytes + 7 < TWO32
  {
    BackedIff(nbytes);
    if nbytes + 7 >= TWO32 {
      assert (nbytes + 7) % TWO32 == nbytes + 7 - TWO32;
    }
  }

  /** A block is as large as the request needs, and no larger than a header and the rounding. */
  lemma RoomExact(nbytes: nat)
    requires nbytes + 7 < TWO32
    ensures nbytes <= 8 * (NUnits(nbytes) - 1) < nbytes + 8
  {
  }

  /** malloc(0x80000000): sbrk succeeds, and the process has not grown. */
  lemma TwoGigabytes(sz: nat, mem: bool)
    requires 0 < sz < KERNBASE - 16
    ensures var n := AskedBytes(NUnits(0x8000_0000)) % TWO32; Growproc(sz, n, mem) == Size(sz) && Roomy(0x8000_0000)
  {
    assert NUnits(0x8000_0000) == 0x1000_0001;
    assert AskedBytes(0x1000_0001) % TWO32 == 0x8000_0008;
  }

  /** After the upper merge, and once p is made to point at b, the list is as after Put and the first Merge. */
  lemma LinkUp(ptr: map<nat, nat>, size: map<nat, nat>, fl: seq<Blk>, k: nat, b: nat)
    requires Ordered(fl) && Chain(ptr, size, fl) && LinkAt(ptr, size, fl, k)
    requires b in size && size[b] >= 1 && Between(fl, k, b)
    requires forall i :: 0 <= i < |fl| ==> Apart(fl[i], Blk(b, size[b]))
    ensures var p, fl1, up := fl[k].a, Merge(Put(fl, k, Blk(b, size[b])), k + 1), b + size[b] == ptr[fl[k].a];
      && (up ==> ptr[p] in ptr && ptr[p] in size)
      && (up ==> Chain(ptr[b := ptr[ptr[p]]][p := b], size[b := size[b] + size[ptr[p]]], fl1))
      && (!up ==> Chain(ptr[b := ptr[p]][p := b], size, fl1))
  {
    var p, x := fl[k].a, Blk(b, size[b]);
    var fl0 := Put(fl, k, x);
    var ptr0 := ptr[b := ptr[p]][p := b];
    PutChain(ptr, size, fl, k, x);
    assert size[b := size[b]] == size;
    assert fl[0].a <= fl[k].a;
    assert Touches(fl0, k + 1) <==> b + size[b] == ptr[p];
    if Touches(fl0, k + 1) {
      assert LinkAt(ptr0, size, fl0, k + 1) && LinkAt(ptr0, size, fl0, k + 2);
      PutOrdered(fl, k, x);
      MergeChain(ptr0, size, fl0, k + 1);
      assert fl0[k+2].a == ptr[p] && ptr0[ptr[p]] == ptr[ptr[p]];
      assert ptr0[b := ptr[ptr[p]]] == ptr[b := ptr[ptr[p]]][p := b];
    }
  }

  lemma MergedUp(fl: seq<Blk>, k: nat, x: Blk)
    requires k < |fl|
    ensures var r := Merge(Put(fl, k, x), k + 1); k + 1 < |r| && r[k] == fl[k] && r[k+1].a == x.a
  {
  }

  lemma NextLinked(ptr: map<nat, nat>, size: map<nat, nat>, fl: seq<Blk>, k: nat)
    requires k + 1 < |fl| && Chain(ptr, size, fl)
    ensures LinkAt(ptr, size, fl, k) && LinkAt(ptr, size, fl, k + 1)
    ensures var p, b := fl[k].a, fl[k+1].a; p in size && b in size && b in ptr && (Touches(fl, k) <==> p + size[p] == b)
  {
    assert LinkAt(ptr, size, fl, k) && LinkAt(ptr, size, fl, k + 1);
  }

  lemma LinkDown(ptr: map<nat, nat>, size: map<nat, nat>, fl: seq<Blk>, k: nat, x: Blk)
    requires Ordered(fl) && Between(fl, k, x.a) && (forall i :: 0 <= i < |fl| ==> Apart(fl[i], x)) && x.n >= 1
    requires Chain(ptr[fl[k].a := x.a], size, Merge(Put(fl, k, x), k + 1))
    ensures var p, b := fl[k].a, x.a;
      && p in size && b in size && b in ptr
      && (p + size[p] == b ==> Chain(ptr[p := ptr[b]], size[p := size[p] + size[b]], Insert(fl, k, x)))
      && (p + size[p] != b ==> Chain(ptr[p := b], size, Insert(fl, k, x)))
  {
    hide Chain, Put, LinkAt, Touches, Ordered, Apart;
    var p, b, fl1 := fl[k].a, x.a, Merge(Put(fl, k, x), k + 1);
    var ptr1 := ptr[p := b];
    MergedUp(fl, k, x);
    NextLinked(ptr1, size, fl1, k);
    assert Insert(fl, k, x) == Merge(fl1, k);
    assert !Touches(fl1, k) ==> Merge(fl1, k) == fl1;
    hide Merge, Insert;
    if Touches(fl1, k) {
      PutOrdered(fl, k, x);
      OrderedMerge(Put(fl, k, x), k + 1);
      MergeChain(ptr1, size, fl1, k);
      assert ptr1[p := ptr1[b]] == ptr[p := ptr[b]];
    }
  }

  ghost predicate At(fl: seq<Blk>, k: nat, p: nat) {
    k < |fl| && p == fl[k].a
  }

  /** What free needs to know of the block it is given. */
  lemma FreeReady(h: Heap, size: map<nat, nat>, bp: nat)
    requires HeapInv(h) && LiveSizes(size, h.live) && bp in h.live
    ensures Ordered(h.fl) && bp in size && size[bp] == h.live[bp] >= 1
    ensures forall i :: 0 <= i < |h.fl| ==> Apart(h.fl[i], Blk(bp, size[bp]))
  {
    assert Clear(h.fl, LiveBlk(h.live, bp));
  }

  lemma FreedSizes(was: map<nat, nat>, size: map<nat, nat>, live: map<nat, nat>, bp: nat, p: nat)
    requires LiveSizes(was, live) && p !in live
    requires forall a :: a in was && a != p && a != bp ==> a in size && size[a] == was[a]
    ensures LiveSizes(size, live - {bp})
  {
  }

  /** What sbrk(n) at the end of the process leaves. */
  predicate Sbrked(end: nat, n: nat, mem: bool, ok: bool, p: nat, brk: nat) {
    match Growproc(8 * end, n, mem)
    case Refused => !ok && brk == end
    case Size(sz) => ok && p == end && 8 * brk == sz
  }

  lemma SizeUnits(end: nat, n: nat, mem: bool)
    requires n < TWO32 && n % 8 == 0 && 8 * end < KERNBASE && Growproc(8 * end, n, mem).Size?
    ensures Growproc(8 * end, n, mem).sz % 8 == 0
  {
  }

  /** morecore's sbrk fails: no memory, or the process would reach the kernel. */
  predicate NoCore(end: nat, nu: nat, mem: bool) {
    !mem || 8 * end + 8 * (if nu < 4096 then 4096 else nu) >= KERNBASE
  }

  /** The heap has gained the units from the old end of the process to the new one: at least
      4096, and at least as many as asked for. */
  ghost predicate CoreAdded(was: set<nat>, end: nat, nu: nat, now: set<nat>, brk: nat) {
    && brk == end + (if nu < 4096 then 4096 else nu)
    && (forall u :: u in now <==> u in was || end <= u < brk)
    && forall u :: end <= u < brk ==> u !in was
  }

  class Allocator {
    var ptr: map<nat, nat>    // s.ptr of the header at an address
    var size: map<nat, nat>   // s.size of the header at an address
    var freep: nat
    var brk: nat              // the end of the process, in units
    ghost var h: Heap

    ghost predicate Valid()
      reads this
    {
      && BASE < brk && 8 * brk < KERNBASE && (forall u :: u in h.arena ==> u < brk)
      && if freep == 0 then h == Heap([], map[], {})
         else HeapInv(h) && Chain(ptr, size, h.fl) && LiveSizes(size, h.live) && exists k: nat :: At(h.fl, k, freep)
    }

    constructor (brk: nat)
      requires BASE < brk && 8 * brk < KERNBASE
      ensures Valid() && freep == 0 && h == Heap([], map[], {})
    {
      ptr, size, freep, this.brk := map[], map[], 0, brk;
      h := Heap([], map[], {});
    }

    /** free's search: a lap round the circular list at most. */
    method FindPlace(bp: nat) returns (p: nat, ghost k: nat)
      requires Valid() && freep != 0 && bp in h.live
      ensures At(h.fl, k, p) && Between(h.fl, k, bp) && LinkAt(ptr, size, h.fl, k)
      ensures p in ptr && (p < bp < ptr[p] || (p >= ptr[p] && (bp > p || bp < ptr[p])))
    {
      ghost var t := SlotFor(h, bp);
      p := freep;
      k :| At(h.fl, k, freep);
      while !(bp > p && bp < ptr[p])
        invariant At(h.fl, k, p) && LinkAt(ptr, size, h.fl, k)
        decreases Dist(k, t, |h.fl|)
      {
        if p >= ptr[p] && (bp > p || bp < ptr[p]) {
          break;
        }
        p, k := ptr[p], Next(h.fl, k);
      }
    }

    /** The relinking of free, with both merges. */
    method Link(bp: nat, p: nat, ghost k: nat)
      requires Ordered(h.fl) && Chain(ptr, size, h.fl) && LinkAt(ptr, size, h.fl, k) && At(h.fl, k, p)
      requires bp in size && size[bp] >= 1 && Between(h.fl, k, bp)
      requires forall i :: 0 <= i < |h.fl| ==> Apart(h.fl[i], Blk(bp, size[bp]))
      modifies this`ptr, this`size
      ensures Chain(ptr, size, Insert(h.fl, k, Blk(bp, old(size)[bp])))
      ensures forall a :: a in old(size) && a != p && a != bp ==> a in size && size[a] == old(size)[a]
    {
      hide Chain, Insert, Merge, Put;
      LinkUp(ptr, size, h.fl, k, bp);
      if bp + size[bp] == ptr[p] {
        size := size[bp := size[bp] + size[ptr[p]]];
        ptr := ptr[bp := ptr[ptr[p]]];
      } else {
        ptr := ptr[bp := ptr[p]];
      }
      LinkDown(ptr, size, h.fl, k, Blk(bp, old(size)[bp]));
      if p + size[p] == bp {
        size := size[p := size[p] + size[bp]];
        ptr := ptr[p := ptr[bp]];
      } else {
        ptr := ptr[p := bp];
      }
    }

    method Free(ap: nat)
      requires Valid() && ap >= 1 && ap - 1 in h.live
      modifies this`ptr, this`size, this`freep, this`h
      ensures Valid() && freep != 0
      ensures h.live == old(h.live) - {ap - 1} && h.arena == old(h.arena)
      ensures Fits(h.fl, old(h.live)[ap - 1])
      // the next search starts at the free block below
      ensures exists k: nat :: Between(old(h.fl), k, ap - 1) && At(old(h.fl), k, freep)
    {
      hide HeapInv, Chain, Insert, LinkAt, Between, LiveSizes, Fits;
      var bp := ap - 1;
      FreeReady(h, size, bp);
      var p, k := FindPlace(bp);
      FreeKeeps(h, k, bp);
      InsertAt(h.fl, k, Blk(bp, h.live[bp]));
      InsertFits(h.fl, k, Blk(bp, h.live[bp]));
      NotInList(h, p, k);
      Link(bp, p, k);
      FreedSizes(old(size), size, h.live, bp, p);
      h := FreeHeap(h, k, bp);
      freep := p;
      assert At(h.fl, k, freep);
    }

    /** The program moves the end of the process up by an sbrk of its own, between calls. */
    method OwnSbrk(gap: nat)
      requires Valid() && 8 * (brk + gap) < KERNBASE
      modifies this`brk
      ensures Valid() && brk == old(brk) + gap
    {
      brk := brk + gap;
    }

    /** sbrk(n): the old end of the process, whose size growproc has changed; mem says whether
        allocuvm finds memory. */
    method Sbrk(n: nat, mem: bool) returns (ok: bool, p: nat)
      requires n < TWO32 && n % 8 == 0 && 0 < brk && 8 * brk < KERNBASE
      modifies this`brk
      ensures Sbrked(old(brk), n, mem, ok, p, brk)
    {
      p := brk;
      var g := Growproc(8 * brk, n, mem);
      ok := g.Size?;
      if ok {
        SizeUnits(brk, n, mem);
        brk := g.sz / 8;
      }
    }

    /** lost: sbrk was asked for no memory or for less, and the header goes outside the process.
        Otherwise morecore fails exactly when there is no memory or no room below KERNBASE, and
        adds exactly the units from the old end of the process on. */
    method MoreCore(nu: nat, mem: bool) returns (p: nat, lost: bool)
      requires Valid() && freep != 0 && 1 <= nu && AskedBytes(nu) <= TWO32
      modifies this
      ensures lost <==> AskedBytes(nu) >= 0x8000_0000
      ensures !lost ==> Valid() && h.live == old(h.live)
      ensures !lost ==> (p == 0 <==> NoCore(old(brk), nu, mem))
      ensures !lost && p == 0 ==> freep == old(freep) && h == old(h) && brk == old(brk)
      ensures !lost && p != 0 ==> p == freep && Fits(h.fl, nu) && CoreAdded(old(h.arena), old(brk), nu, h.arena, brk)
    {
      var n := Asked(nu);
      lost := 8 * n >= 0x8000_0000;
      var ok, a := Sbrk(8 * n % TWO32, mem);
      if lost || !ok { return 0, lost; }
      ghost var live0 := h.live;
      size := size[a := n];
      AddRegion(a, n, old(size), old(brk));
      assert h.live[a] == n && h.live - {a} == live0;
      Free(a + 1);
      p := freep;
    }

    /** The new region, seen as a live block. */
    ghost method AddRegion(a: nat, n: nat, size0: map<nat, nat>, brk0: nat)
      requires freep != 0 && HeapInv(h) && Chain(ptr, size0, h.fl) && LiveSizes(size0, h.live)
      requires size == size0[a := n] && (forall u :: u in h.arena ==> u < brk0) && exists k: nat :: At(h.fl, k, freep)
      requires BASE < brk0 <= a && brk == a + n && n >= 1 && 8 * brk < KERNBASE
      modifies this`h
      ensures Valid() && a !in old(h.live) && h.live == old(h.live)[a := n]
      ensures forall u :: u in h.arena <==> u in old(h.arena) || a <= u < a + n
    {
      GrowKeeps(h, Blk(a, n), brk0);
      var r := GrowHeap(h, Blk(a, n));
      assert Clear(h.fl, LiveBlk(r.live, a));
      NewSize(ptr, size0, h.fl, a, n);
      assert a in r.arena && a !in h.arena;
      var k: nat :| At(h.fl, k, freep);
      h := r;
      assert At(h.fl, k, freep);
    }

    /** The first call makes `base` a list of its own. */
    method InitList()
      requires Valid()
      modifies this`ptr, this`size, this`freep, this`h
      ensures Valid() && freep != 0 && h.live == old(h.live) && h.arena == old(h.arena)
      ensures if old(freep) == 0 then h.fl == [Blk(BASE, 0)] else unchanged(this)
    {
      if freep == 0 {
        ptr, size, freep := ptr[BASE := BASE], size[BASE := 0], BASE;
        h := Heap([Blk(BASE, 0)], map[], {});
        BaseOnly(ptr, size);
        assert At(h.fl, 0, freep);
      }
    }

    /** Unlink the block at p, or cut n units off its end. */
    method Take(prevp: nat, p: nat, n: nat, ghost j: nat) returns (ap: nat)
      requires Valid() && freep != 0 && 1 <= j && At(h.fl, j - 1, prevp) && At(h.fl, j, p)
      requires 1 <= n <= h.fl[j].n && LinkAt(ptr, size, h.fl, j)
      modifies this`ptr, this`size, this`freep, this`h
      ensures Valid() && freep != 0 && ap >= 1 && ap - 1 !in old(h.live)
      ensures h.live == old(h.live)[ap - 1 := n] && h.arena == old(h.arena)
      ensures ap + n == old(h.fl)[j].a + old(h.fl)[j].n + 1 && freep == prevp
    {
      hide HeapInv;
      TakeKeeps(h, j, n);
      TakeSizes(h, j, n, size);
      TakeOrdered(h);
      var q := p;
      if size[p] == n {
        TakeAllChain(ptr, size, h.fl, j);
        ptr := ptr[prevp := ptr[p]];
      } else {
        TakeTailChain(ptr, size, h.fl, j, n);
        size := size[p := size[p] - n];
        q := p + size[p];
        size := size[q := n];
      }
      h := TakeHeap(h, j, n);
      freep := prevp;
      assert At(h.fl, j - 1, freep);
      ap := q + 1;
    }

    /** A result is a live block of its own; lost marks the requests for which morecore gets no
        memory and does not see it. */
    method Malloc(nbytes: nat, mem: bool) returns (ap: nat, lost: bool)
      requires Valid() && nbytes < TWO32
      modifies this
      ensures lost <==> !Fits(old(h.fl), NUnits(nbytes)) && !Backed(nbytes)
      ensures !lost ==> Valid() && freep != 0
      // it fails exactly when no free block is large enough and there is no more core
      ensures !lost ==> (ap == 0 <==> !Fits(old(h.fl), NUnits(nbytes)) && NoCore(old(brk), NUnits(nbytes), mem))
      ensures !lost && ap == 0 ==> h.live == old(h.live)
      ensures !lost && ap != 0 ==> ap - 1 !in old(h.live) && h.live == old(h.live)[ap - 1 := NUnits(nbytes)]
      // the heap grows only when no free block was large enough, by exactly the new core
      ensures !lost && (ap == 0 || Fits(old(h.fl), NUnits(nbytes))) ==> h.arena == old(h.arena) && brk == old(brk)
      ensures !lost && ap != 0 && !Fits(old(h.fl), NUnits(nbytes)) ==>
        CoreAdded(old(h.arena), old(brk), NUnits(nbytes), h.arena, brk)
      // the block is the tail of the next free block after freep that is large enough, or of the new core
      ensures !lost && Fits(old(h.fl), NUnits(nbytes)) ==> NextFit(old(h.fl), old(freep), NUnits(nbytes), ap, freep)
      ensures !lost && ap != 0 && !Fits(old(h.fl), NUnits(nbytes)) ==> ap - 1 + NUnits(nbytes) == brk
    {
      hide HeapInv, LiveSizes, Fits, CoreAdded, NoCore, NextFit;
      BackedIff(nbytes);
      NoFitAtBase(NUnits(nbytes));
      InitList();
      ap, lost := Search(NUnits(nbytes), mem);
    }

    /** The loop of malloc: once round the list from freep, and again after morecore. */
    method Search(nunits: nat, mem: bool) returns (ap: nat, lost: bool)
      requires Valid() && freep != 0 && nunits >= 1 && AskedBytes(nunits) <= TWO32
      modifies this
      ensures lost <==> !Fits(old(h.fl), nunits) && AskedBytes(nunits) >= 0x8000_0000
      ensures !lost ==> Valid() && freep != 0
      ensures !lost ==> (ap == 0 <==> !Fits(old(h.fl), nunits) && NoCore(old(brk), nunits, mem))
      ensures !lost && ap == 0 ==> h.live == old(h.live)
      ensures !lost && ap != 0 ==> ap - 1 !in old(h.live) && h.live == old(h.live)[ap - 1 := nunits]
      ensures !lost && (ap == 0 || Fits(old(h.fl), nunits)) ==> h.arena == old(h.arena) && brk == old(brk)
      ensures !lost && ap != 0 && !Fits(old(h.fl), nunits) ==> CoreAdded(old(h.arena), old(brk), nunits, h.arena, brk)
      ensures !lost && Fits(old(h.fl), nunits) ==> NextFit(old(h.fl), old(freep), nunits, ap, freep)
      ensures !lost && ap != 0 && !Fits(old(h.fl), nunits) ==> ap - 1 + nunits == brk
    {
      hide HeapInv, LiveSizes, FitAhead, Fits, Dist, CoreAdded, NoCore, NoneBefore, NextFit;
      lost := false;
      ghost var fit := Fits(h.fl, nunits);
      ghost var arena0, live0, fl1, brk0, h1, freep1 := h.arena, h.live, h.fl, brk, h, freep;
      var prevp := freep;
      ghost var kp: nat :| At(h.fl, kp, freep);
      assert LinkAt(ptr, size, h.fl, kp);
      var p := ptr[prevp];
      ghost var f, k, cored := kp, Next(h.fl, kp), false;
      AheadStart(h.fl, f, nunits);
      NoneYet(h.fl, f, nunits);
      while true
        invariant Valid() && freep != 0 && h.live == live0 && !lost && (cored ==> AskedBytes(nunits) < 0x8000_0000)
        invariant At(h.fl, f, freep) && At(h.fl, kp, prevp) && At(h.fl, k, p) && k == Next(h.fl, kp)
        invariant !cored ==> h.fl == fl1 && NoneBefore(h.fl, k, f, nunits) && freep == freep1
        invariant if cored then CoreAdded(arena0, brk0, nunits, h.arena, brk) && !fit && FitAhead(h.fl, k, f, nunits) && !NoCore(brk0, nunits, mem)
                  else h.arena == arena0 && brk == brk0 && (fit ==> FitAhead(h.fl, k, f, nunits))
        decreases !cored, Dist(k, f, |h.fl|)
      {
        assert LinkAt(ptr, size, h.fl, k);
        if size[p] >= nunits {
          TakeIndex(h, kp, k, nunits);
          FitsHere(h.fl, k, nunits);
          if cored { CoreTail(h1, h, brk0, brk, k, nunits); }
          ap := Take(prevp, p, nunits, k);
          if !cored { FoundNext(fl1, freep1, f, k, nunits, ap, freep); }
          return ap, false;
        }
        AheadNext(h, k, f, nunits);
        if !cored && p != freep { NonePast(h.fl, k, f, nunits); }
        if p == freep {
          p, lost := MoreCore(nunits, mem);
          if lost || p == 0 { return 0, lost; }
          cored := true;
          k :| At(h.fl, k, freep);
          f := k;
          AheadStart(h.fl, f, nunits);
          assert LinkAt(ptr, size, h.fl, k);
        }
        prevp, kp := p, k;
        p, k := ptr[p], Next(h.fl, k);
      }
    }
  }

  /** No block of n units lies on the way from just after position f to position k: whoever is that
      large has no more of the round to f before it than k has. */
  ghost predicate NoneBefore(fl: seq<Blk>, k: nat, f: nat, n: nat) {
    k < |fl| && f < |fl| && forall i: nat :: i < |fl| && fl[i].n >= n ==> Dist(i, f, |fl|) <= Dist(k, f, |fl|)
  }

  /** The n units at ap - 1 end the first block of n units or more that the search meets after freep,
      and the next search starts at the block before it. */
  ghost predicate NextFit(fl: seq<Blk>, freep: nat, n: nat, ap: nat, next: nat) {
    exists f: nat, j: nat :: At(fl, f, freep) && NoneBefore(fl, j, f, n) && TailOf(fl, j, n, ap, next)
  }

  ghost predicate TailOf(fl: seq<Blk>, j: nat, n: nat, ap: nat, next: nat) {
    1 <= j < |fl| && fl[j].n >= n && ap - 1 + n == fl[j].a + fl[j].n && next == fl[j-1].a
  }

  lemma NoneYet(fl: seq<Blk>, f: nat, n: nat)
    requires f < |fl|
    ensures NoneBefore(fl, Next(fl, f), f, n)
  {
  }

  lemma NonePast(fl: seq<Blk>, k: nat, f: nat, n: nat)
    requires NoneBefore(fl, k, f, n) && k != f && fl[k].n < n
    ensures NoneBefore(fl, Next(fl, k), f, n)
  {
  }

  lemma FoundNext(fl: seq<Blk>, freep: nat, f: nat, j: nat, n: nat, ap: nat, next: nat)
    requires At(fl, f, freep) && NoneBefore(fl, j, f, n) && TailOf(fl, j, n, ap, next)
    ensures NextFit(fl, freep, n, ap, next)
  {
    hide NoneBefore;
  }

  /** Free units in a row lie in one block: nothing is left to coalesce. */
  lemma {:induction false} OneBlock(fl: seq<Blk>, a: nat, n: nat) returns (j: nat)
    requires FreeList(fl) && n >= 1 && forall u :: a <= u < a + n ==> InFree(fl, u)
    ensures j < |fl| && fl[j].a <= a && a + n <= fl[j].a + fl[j].n
  {
    if n == 1 {
      assert InFree(fl, a);
      j :| 0 <= j < |fl| && Covers(fl[j], a);
    } else {
      j := OneBlock(fl, a, n - 1);
      assert InFree(fl, a + n - 1);
      var i: nat :| i < |fl| && Covers(fl[i], a + n - 1);
      assert GapAt(fl, j);
    }
  }

  /** When nothing fitted before, what fits now ends with the new core. */
  lemma CoreTail(was: Heap, h: Heap, end: nat, brk: nat, j: nat, n: nat)
    requires HeapInv(was) && HeapInv(h) && h.live == was.live && CoreAdded(was.arena, end, n, h.arena, brk)
    requires (forall u :: u in was.arena ==> u < end) && !Fits(was.fl, n) && j < |h.fl| && h.fl[j].n >= n >= 1
    ensures h.fl[j].a + h.fl[j].n == brk
  {
    var b := h.fl[j];
    assert forall u :: Covers(b, u) ==> InFree(h.fl, u);
    assert Covers(b, b.a + b.n - 1);
    forall u | end <= u < brk ensures InFree(h.fl, u) { assert u in h.arena && u !in was.arena; }
    var m := OneBlock(h.fl, end, brk - end);
    if b.a + b.n != brk {
      forall u | b.a <= u < b.a + b.n ensures InFree(was.fl, u) {
        assert Covers(b, u) && u in h.arena;
        assert Covers(h.fl[m], u) ==> m == j;
      }
      var i := OneBlock(was.fl, b.a, b.n);
      FitsHere(was.fl, i, n);
    }
  }

  lemma FitsHere(fl: seq<Blk>, k: nat, n: nat)
    requires k < |fl| && fl[k].n >= n
    ensures Fits(fl, n)
  {
  }

  ghost predicate Fits(fl: seq<Blk>, n: nat) {
    exists i :: 0 <= i < |fl| && fl[i].n >= n
  }

  /** A block of n units lies on the way from position k to position f, both included. */
  ghost predicate FitAhead(fl: seq<Blk>, k: nat, f: nat, n: nat) {
    && k < |fl| && f < |fl|
    && exists j: nat :: j < |fl| && fl[j].n >= n && Dist(j, f, |fl|) <= Dist(k, f, |fl|)
  }

  /** One lap from f meets every block. */
  lemma AheadStart(fl: seq<Blk>, f: nat, n: nat)
    requires f < |fl|
    ensures Fits(fl, n) ==> FitAhead(fl, Next(fl, f), f, n)
  {
    if Fits(fl, n) {
      var j :| 0 <= j < |fl| && fl[j].n >= n;
      assert Dist(j, f, |fl|) <= Dist(Next(fl, f), f, |fl|);
    }
  }

  /** Passing a block that is too small keeps a fitting one ahead; at f there is none left. */
  lemma AheadNext(h: Heap, k: nat, f: nat, n: nat)
    requires HeapInv(h) && k < |h.fl| && f < |h.fl| && h.fl[k].n < n
    ensures k == f ==> !FitAhead(h.fl, k, f, n)
    ensures k != f ==> h.fl[k].a != h.fl[f].a && Dist(Next(h.fl, k), f, |h.fl|) < Dist(k, f, |h.fl|)
    ensures k != f && FitAhead(h.fl, k, f, n) ==> FitAhead(h.fl, Next(h.fl, k), f, n)
  {
    if k != f && FitAhead(h.fl, k, f, n) {
      var j: nat :| j < |h.fl| && h.fl[j].n >= n && Dist(j, f, |h.fl|) <= Dist(k, f, |h.fl|);
      assert Dist(j, f, |h.fl|) <= Dist(Next(h.fl, k), f, |h.fl|);
    }
  }

  lemma NoFitAtBase(n: nat)
    requires n >= 1
    ensures !Fits([], n) && !Fits([Blk(BASE, 0)], n)
  {
  }

  /** `base` holds no units, so what malloc takes has a predecessor below it. */
  lemma TakeIndex(h: Heap, kp: nat, k: nat, n: nat)
    requires HeapInv(h) && kp < |h.fl| && k == Next(h.fl, kp) && n >= 1 && h.fl[k].n >= n
    ensures k == kp + 1
  {
  }

  lemma BaseOnly(ptr: map<nat, nat>, size: map<nat, nat>)
    requires BASE in ptr && ptr[BASE] == BASE && BASE in size && size[BASE] == 0
    ensures HeapInv(Heap([Blk(BASE, 0)], map[], {})) && Chain(ptr, size, [Blk(BASE, 0)])
  {
  }

  lemma TakeOrdered(h: Heap)
    requires HeapInv(h)
    ensures Ordered(h.fl) && forall i :: 0 <= i < |h.fl| ==> h.fl[i].a != 0
  {
  }

  lemma TakeSizes(h: Heap, j: nat, n: nat, size: map<nat, nat>)
    requires HeapInv(h) && 1 <= j < |h.fl| && 1 <= n <= h.fl[j].n && LiveSizes(size, h.live)
    ensures forall a :: a in h.live ==> a != h.fl[j].a && a != Taken(h.fl, j, n).a
  {
    forall a | a in h.live ensures a != h.fl[j].a && a != Taken(h.fl, j, n).a {
      assert Clear(h.fl, LiveBlk(h.live, a));
      assert Apart(h.fl[j], LiveBlk(h.live, a));
    }
  }

  lemma InsertAt(fl: seq<Blk>, k: nat, b: Blk)
    requires k < |fl|
    ensures k < |Insert(fl, k, b)| && Insert(fl, k, b)[k].a == fl[k].a
  {
  }

  lemma InsertFits(fl: seq<Blk>, k: nat, b: Blk)
    requires k < |fl|
    ensures Fits(Insert(fl, k, b), b.n)
  {
    var r := Merge(Put(fl, k, b), k + 1);
    assert r[k+1].n >= b.n;
    var m := Merge(r, k);
    assert m[if Touches(r, k) then k else k + 1].n >= b.n;
  }

  /** A free block's header is not a live block's. */
  lemma NotInList(h: Heap, p: nat, k: nat)
    requires HeapInv(h) && k < |h.fl| && p == h.fl[k].a
    ensures p !in h.live && p != 0
  {
    forall a | a in h.live ensures a != p {
      assert Clear(h.fl, LiveBlk(h.live, a));
      assert Apart(h.fl[k], LiveBlk(h.live, a));
    }
  }

  lemma NewSize(ptr: map<nat, nat>, size: map<nat, nat>, fl: seq<Blk>, a: nat, n: nat)
    requires Chain(ptr, size, fl) && n >= 1 && Sized(fl) && Clear(fl, Blk(a, n))
    ensures Chain(ptr, size[a := n], fl)
  {
    var size' := size[a := n];
    forall i: nat | i < |fl| ensures LinkAt(ptr, size', fl, i) {
      assert LinkAt(ptr, size, fl, i) && Apart(fl[i], Blk(a, n));
    }
  }

  // ---- the list is determined by what is free ----

  lemma SameStart(f: seq<Blk>, g: seq<Blk>, k: nat)
    requires FreeList(f) && FreeList(g) && (forall u :: InFree(f, u) ==> InFree(g, u))
    requires 1 <= k < |f| && k <= |g| && f[..k] == g[..k]
    ensures k < |g| && g[k].a <= f[k].a
  {
    var u := f[k].a;
    assert Covers(f[k], u);
    assert InFree(f, u);
    forall j | 0 <= j < k ensures !Covers(g[j], u) {
      assert g[j] == g[..k][j] == f[j];
    }
  }

  lemma NextUnit(f: seq<Blk>, k: nat)
    requires FreeList(f) && k < |f|
    ensures !InFree(f, f[k].a + f[k].n)
  {
    var u := f[k].a + f[k].n;
    assert GapAt(f, k);
    forall j | 0 <= j < |f| ensures !Covers(f[j], u) {
      assert j > k + 1 ==> f[k+1].a < f[j].a;
    }
  }

  lemma SameEnd(f: seq<Blk>, g: seq<Blk>, k: nat)
    requires FreeList(f) && (forall u :: InFree(g, u) ==> InFree(f, u))
    requires k < |f| && k < |g| && f[k].a == g[k].a
    ensures g[k].n <= f[k].n
  {
    NextUnit(f, k);
    assert !Covers(g[k], f[k].a + f[k].n);
  }

  /** Address order and full coalescing leave no choice: two lists with the same free units are equal.
      So what free() leaves depends only on what is free, not on the order of the calls. */
  lemma {:induction false} Canonical(f: seq<Blk>, g: seq<Blk>, k: nat)
    requires FreeList(f) && FreeList(g) && forall u :: InFree(f, u) <==> InFree(g, u)
    requires 1 <= k <= |f| && k <= |g| && f[..k] == g[..k]
    ensures f == g
    decreases |f| - k
  {
    if k < |f| || k < |g| {
      if k < |f| { SameStart(f, g, k); }
      if k < |g| { SameStart(g, f, k); }
      SameEnd(f, g, k);
      SameEnd(g, f, k);
      assert f[..k+1] == f[..k] + [f[k]] && g[..k+1] == g[..k] + [g[k]];
      Canonical(f, g, k + 1);
    } else {
      assert f == f[..k] && g == g[..k];
    }
  }

  // ---- conservation ----

  ghost function FreeSize(fl: seq<Blk>): nat {
    if fl == [] then 0 else FreeSize(fl[..|fl|-1]) + fl[|fl|-1].n
  }

  ghost function LiveSize(live: map<nat, nat>): nat
    decreases |live|
  {
    if live == map[] then 0
    else
      var a :| a in live;
      assert (live - {a}).Keys == live.Keys - {a};
      live[a] + LiveSize(live - {a})
  }

  lemma {:induction false} CountUnits(b: Blk)
    ensures |Units(b)| == b.n && forall u: nat :: u in Units(b) <==> Covers(b, u)
    decreases b.n
  {
    if b.n == 0 {
      assert Units(b) == {};
    } else {
      var c := Blk(b.a, b.n - 1);
      CountUnits(c);
      assert Units(b) == Units(c) + {b.a + b.n - 1};
    }
  }

  lemma {:induction false} CountFree(fl: seq<Blk>) returns (us: set<nat>)
    requires Ordered(fl)
    ensures |us| == FreeSize(fl) && forall u :: u in us <==> InFree(fl, u)
  {
    if fl == [] {
      us := {};
    } else {
      var init, b := fl[..|fl|-1], fl[|fl|-1];
      var vs := CountFree(init);
      CountUnits(b);
      us := vs + Units(b);
      forall u ensures u in us <==> InFree(fl, u) {
        if InFree(fl, u) {
          var i :| 0 <= i < |fl| && Covers(fl[i], u);
          if i < |init| { assert Covers(init[i], u); }
        }
        if u in vs {
          var i :| 0 <= i < |init| && Covers(init[i], u);
          assert Covers(fl[i], u);
        }
        if u in Units(b) { assert Covers(fl[|fl|-1], u); }
      }
      assert vs !! Units(b);
    }
  }

  lemma RestLive(fl: seq<Blk>, live: map<nat, nat>, a: nat)
    requires LiveInv(fl, live) && a in live
    ensures LiveInv(fl, live - {a})
    ensures forall u: nat :: InLive(live - {a}, u) ==> !Covers(LiveBlk(live, a), u)
  {
    var rest := live - {a};
    assert forall x :: x in rest ==> LiveBlk(rest, x) == LiveBlk(live, x);
    forall u: nat | InLive(rest, u) ensures !Covers(LiveBlk(live, a), u) {
      var x :| x in rest && Covers(LiveBlk(rest, x), u);
      assert Apart(LiveBlk(live, x), LiveBlk(live, a));
    }
  }

  lemma {:induction false} CountLive(fl: seq<Blk>, live: map<nat, nat>) returns (us: set<nat>)
    requires LiveInv(fl, live)
    ensures |us| == LiveSize(live) && forall u :: u in us <==> InLive(live, u)
    decreases |live|
  {
    if live == map[] {
      us := {};
    } else {
      var a :| a in live && LiveSize(live) == live[a] + LiveSize(live - {a});
      hide LiveInv, LiveSize;
      var b := LiveBlk(live, a);
      assert (live - {a}).Keys == live.Keys - {a};
      RestLive(fl, live, a);
      var vs := CountLive(fl, live - {a});
      CountUnits(b);
      us := vs + Units(b);
      forall u: nat ensures u in us <==> InLive(live, u) { LiveWithout(live, a, u); }
      hide InLive;
      assert vs !! Units(b);
    }
  }

  lemma NotBoth(fl: seq<Blk>, live: map<nat, nat>, u: nat)
    requires LiveInv(fl, live) && InFree(fl, u)
    ensures !InLive(live, u)
  {
    var i :| 0 <= i < |fl| && Covers(fl[i], u);
    forall a | a in live ensures !Covers(LiveBlk(live, a), u) {
      assert Clear(fl, LiveBlk(live, a));
      assert Apart(fl[i], LiveBlk(live, a));
    }
  }

  /** Free plus live units are the units obtained from sbrk. */
  lemma Conservation(h: Heap)
    requires HeapInv(h)
    ensures FreeSize(h.fl) + LiveSize(h.live) == |h.arena|
  {
    hide Ordered, LiveInv, InFree, InLive, FreeSize, LiveSize;
    var fs := CountFree(h.fl);
    var ls := CountLive(h.fl, h.live);
    forall u | u in fs ensures u !in ls {
      NotBoth(h.fl, h.live, u);
    }
    assert fs !! ls;
    assert h.arena == fs + ls;
  }
}
