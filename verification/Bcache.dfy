/** The buffer cache of bio.c over the memory disk of memide.c.

    A pointer to a buffer is its index in bcache.buf; index HEAD is bcache.head. */
module Bcache {
  import opened Blocks

  const NBUF: nat := 30
  const HEAD: nat := 30

  datatype Buf = Buf(
    dev: nat, blockno: nat,
    valid: bool, dirty: bool,   // B_VALID and B_DIRTY
    refcnt: int,
    holder: nat,                // pid holding b->lock, 0 if none
    data: Block,
    prev: nat, next: nat)

  // ---- the ring ----

  /** Each buffer once. */
  ghost predicate Ring(ring: seq<nat>) {
    |ring| == NBUF && Nodes(ring) && forall b: nat :: b < NBUF ==> b in ring
  }

  /** The k-th node met from the head; 0 and |ring|+1 are the head itself. */
  function Node(ring: seq<nat>, k: nat): nat {
    if 0 < k <= |ring| then ring[k-1] else HEAD
  }

  ghost predicate LinkAt(buf: seq<Buf>, ring: seq<nat>, k: nat) {
    && Node(ring, k) < |buf| && Node(ring, k + 1) < |buf|
    && buf[Node(ring, k)].next == Node(ring, k + 1) && buf[Node(ring, k + 1)].prev == Node(ring, k)
  }

  /** next goes round the ring in order, and prev goes back. */
  ghost predicate Linked(buf: seq<Buf>, ring: seq<nat>) {
    forall k: nat :: k <= |ring| ==> LinkAt(buf, ring, k)
  }

  ghost predicate Nodes(ring: seq<nat>) {
    && (forall i :: 0 <= i < |ring| ==> ring[i] < NBUF)
    && (forall i, j :: 0 <= i < j < |ring| ==> ring[i] != ring[j])
  }

  function SetNext(buf: seq<Buf>, i: nat, v: nat): (r: seq<Buf>)
    requires i < |buf|
    ensures |r| == |buf| && forall j :: 0 <= j < |r| ==> r[j] == if j == i then buf[i].(next := v) else buf[j]
  {
    buf[i := buf[i].(next := v)]
  }

  function SetPrev(buf: seq<Buf>, i: nat, v: nat): (r: seq<Buf>)
    requires i < |buf|
    ensures |r| == |buf| && forall j :: 0 <= j < |r| ==> r[j] == if j == i then buf[i].(prev := v) else buf[j]
  {
    buf[i := buf[i].(prev := v)]
  }

  function Without(ring: seq<nat>, k: nat): (r: seq<nat>)
    requires k < |ring|
    ensures |r| == |ring| - 1 && forall i :: 0 <= i < |r| ==> r[i] == ring[if i < k then i else i + 1]
  {
    ring[..k] + ring[k+1..]
  }

  /** b->next->prev = b->prev; b->prev->next = b->next; */
  lemma Unlink(buf: seq<Buf>, ring: seq<nat>, k: nat)
    requires |buf| == NBUF + 1 && Nodes(ring) && Linked(buf, ring) && k < |ring|
    requires LinkAt(buf, ring, k) && LinkAt(buf, ring, k + 1)
    ensures var b := ring[k];
      Linked(SetNext(SetPrev(buf, buf[b].next, buf[b].prev), buf[b].prev, buf[b].next), Without(ring, k))
  {
    var b, r := ring[k], Without(ring, k);
    var t := SetNext(SetPrev(buf, buf[b].next, buf[b].prev), buf[b].prev, buf[b].next);
    forall m: nat | m <= |r| ensures LinkAt(t, r, m) {
      assert LinkAt(buf, ring, if m < k then m else m + 1);
      assert Node(r, m) == Node(ring, if m <= k then m else m + 1);
      assert Node(r, m + 1) == Node(ring, if m < k then m + 1 else m + 2);
    }
  }

  /** b->next = head.next; b->prev = &head; head.next->prev = b; head.next = b; */
  lemma PushFront(buf: seq<Buf>, ring: seq<nat>, b: nat)
    requires |buf| == NBUF + 1 && Nodes(ring) && Linked(buf, ring) && b < NBUF && b !in ring
    requires LinkAt(buf, ring, 0)
    ensures var first := buf[HEAD].next;
      Linked(SetNext(SetPrev(SetPrev(SetNext(buf, b, first), b, HEAD), first, b), HEAD, b), [b] + ring)
  {
    var r, first := [b] + ring, buf[HEAD].next;
    var t := SetNext(SetPrev(SetPrev(SetNext(buf, b, first), b, HEAD), first, b), HEAD, b);
    forall m: nat | m <= |r| ensures LinkAt(t, r, m) {
      if m > 0 { assert LinkAt(buf, ring, m - 1); }
      assert m > 1 ==> Node(r, m) == Node(ring, m - 1);
      assert m > 0 ==> Node(r, m + 1) == Node(ring, m);
    }
  }

  // ---- contents ----

  /** A valid buffer that is not dirty agrees with the disk, and only a referenced buffer is locked. */
  ghost predicate Coherent(buf: seq<Buf>, disk: seq<Block>) {
    forall i :: 0 <= i < NBUF && i < |buf| ==>
      && buf[i].refcnt >= 0 && (buf[i].holder != 0 ==> buf[i].refcnt >= 1) && (buf[i].dirty ==> buf[i].valid)
      && (buf[i].valid ==> buf[i].dev == 1 && buf[i].blockno < |disk|)
      && (buf[i].valid && !buf[i].dirty ==> buf[i].data == disk[buf[i].blockno])
  }

  predicate Holds(buf: seq<Buf>, i: nat, dev: nat, blockno: nat) {
    i < NBUF && i < |buf| && buf[i].dev == dev && buf[i].blockno == blockno
  }

  /** No block of a device other than 0 has two buffers. */
  ghost predicate Unique(buf: seq<Buf>) {
    forall i: nat, j: nat, dev: nat, b: nat :: dev != 0 && Holds(buf, i, dev, b) && Holds(buf, j, dev, b) ==> i == j
  }

  ghost predicate Cached(buf: seq<Buf>, i: nat, b: nat) {
    Holds(buf, i, 1, b) && buf[i].valid
  }

  /** What block b of the disk holds for the file system: the buffer if there is a valid one, else the disk. */
  ghost function Logical(buf: seq<Buf>, disk: seq<Block>, b: nat): Block
    requires b < |disk|
  {
    if exists i: nat :: Cached(buf, i, b) then
      var i: nat :| Cached(buf, i, b);
      buf[i].data
    else disk[b]
  }

  lemma LogicalAt(buf: seq<Buf>, disk: seq<Block>, b: nat, i: nat)
    requires b < |disk| && Unique(buf) && Cached(buf, i, b)
    ensures Logical(buf, disk, b) == buf[i].data
  {
    forall j: nat | Cached(buf, j, b) ensures j == i {
      assert Holds(buf, i, 1, b) && Holds(buf, j, 1, b);
    }
  }

  ghost predicate SameLogical(buf: seq<Buf>, disk: seq<Block>, buf': seq<Buf>, disk': seq<Block>) {
    && |disk'| == |disk|
    && forall b: nat :: b < |disk| ==> Logical(buf', disk', b) == Logical(buf, disk, b)
  }

  /** Only links, reference counts and locks differ. */
  ghost predicate SameContents(buf: seq<Buf>, buf': seq<Buf>) {
    && |buf'| == |buf|
    && forall i :: 0 <= i < |buf| ==>
         && buf'[i].dev == buf[i].dev && buf'[i].blockno == buf[i].blockno
         && buf'[i].valid == buf[i].valid && buf'[i].dirty == buf[i].dirty && buf'[i].data == buf[i].data
  }

  lemma ContentsLogical(buf: seq<Buf>, buf': seq<Buf>, disk: seq<Block>)
    requires SameContents(buf, buf') && Unique(buf)
    ensures Unique(buf') && SameLogical(buf, disk, buf', disk)
  {
    forall i: nat, j: nat, dev: nat, b: nat | dev != 0 && Holds(buf', i, dev, b) && Holds(buf', j, dev, b) ensures i == j {
      assert Holds(buf, i, dev, b) && Holds(buf, j, dev, b);
    }
    forall b: nat | b < |disk| ensures Logical(buf', disk, b) == Logical(buf, disk, b) {
      if i: nat :| Cached(buf, i, b) {
        assert Cached(buf', i, b);
        LogicalAt(buf, disk, b, i);
        LogicalAt(buf', disk, b, i);
      } else if j: nat :| Cached(buf', j, b) {
        assert Cached(buf, j, b);
      }
    }
  }

  /** Giving an idle clean buffer to another block hides nothing: what it held is on the disk. */
  lemma RecycleLogical(buf: seq<Buf>, disk: seq<Block>, i: nat, dev: nat, blockno: nat, buf': seq<Buf>)
    requires |buf| == NBUF + 1 && i < NBUF && Coherent(buf, disk) && Unique(buf) && !buf[i].dirty
    requires forall j: nat :: !Holds(buf, j, dev, blockno)
    requires buf' == buf[i := buf[i].(dev := dev, blockno := blockno, valid := false, dirty := false, refcnt := 1)]
    ensures Unique(buf') && SameLogical(buf, disk, buf', disk)
  {
    forall x: nat, y: nat, d: nat, b: nat | d != 0 && Holds(buf', x, d, b) && Holds(buf', y, d, b) ensures x == y {
      assert x != i ==> Holds(buf, x, d, b);
      assert y != i ==> Holds(buf, y, d, b);
    }
    forall b: nat | b < |disk| ensures Logical(buf', disk, b) == Logical(buf, disk, b) {
      if x: nat :| Cached(buf, x, b) {
        LogicalAt(buf, disk, b, x);
        if x != i {
          assert Cached(buf', x, b);
          LogicalAt(buf', disk, b, x);
        } else if y: nat :| Cached(buf', y, b) {
          assert Cached(buf, y, b);
        }
      } else if y: nat :| Cached(buf', y, b) {
        assert Cached(buf, y, b);
      }
    }
  }

  /** Filling or changing the data of the one buffer of a block. */
  lemma DataLogical(buf: seq<Buf>, disk: seq<Block>, i: nat, b: nat, buf': seq<Buf>, disk': seq<Block>)
    requires |buf| == NBUF + 1 && Unique(buf) && Holds(buf, i, 1, b) && b < |disk| == |disk'|
    requires |buf'| == |buf| && Cached(buf', i, b) && forall j :: 0 <= j < |buf| && j != i ==> buf'[j] == buf[j]
    requires forall c :: 0 <= c < |disk| && c != b ==> disk'[c] == disk[c]
    ensures Unique(buf') && Logical(buf', disk', b) == buf'[i].data
    ensures forall c: nat :: c < |disk| && c != b ==> Logical(buf', disk', c) == Logical(buf, disk, c)
  {
    forall x: nat, y: nat, d: nat, c: nat | d != 0 && Holds(buf', x, d, c) && Holds(buf', y, d, c) ensures x == y {
      assert Holds(buf, x, d, c) && Holds(buf, y, d, c);
    }
    LogicalAt(buf', disk', b, i);
    forall c: nat | c < |disk| && c != b ensures Logical(buf', disk', c) == Logical(buf, disk, c) {
      if x: nat :| Cached(buf, x, c) {
        assert Cached(buf', x, c);
        LogicalAt(buf, disk, c, x);
        LogicalAt(buf', disk', c, x);
      } else if y: nat :| Cached(buf', y, c) {
        assert Cached(buf, y, c);
      }
    }
  }

  // ---- recency ----

  /** The ring runs from the most to the least recently released buffer. */
  ghost predicate Recency(ring: seq<nat>, stamp: seq<nat>, clock: nat) {
    && |stamp| == NBUF && (forall i :: 0 <= i < NBUF ==> stamp[i] < clock)
    && (forall i, j :: 0 <= i < j < |ring| && ring[i] < NBUF && ring[j] < NBUF ==> stamp[ring[i]] > stamp[ring[j]])
  }

  /** A buffer bget may recycle. */
  predicate Idle(b: Buf) { b.refcnt == 0 && !b.dirty }

  /** bget panics: the block has no buffer and none can be recycled. */
  ghost predicate NoBuffers(buf: seq<Buf>, dev: nat, blockno: nat) {
    (forall j: nat :: !Holds(buf, j, dev, blockno)) && forall j :: 0 <= j < NBUF && j < |buf| ==> !Idle(buf[j])
  }

  class Cache {
    var buf: seq<Buf>
    var disk: seq<Block>
    ghost var ring: seq<nat>
    ghost var stamp: seq<nat>    // when each buffer was last released
    ghost var clock: nat

    ghost predicate Valid()
      reads this
    {
      && |buf| == NBUF + 1 && Ring(ring) && Linked(buf, ring)
      && Coherent(buf, disk) && Unique(buf)
      && Recency(ring, stamp, clock)
    }

    ghost function Read(b: nat): Block
      reads this
      requires b < |disk|
    {
      Logical(buf, disk, b)
    }

    /** binit: every buffer is pushed on the front of an empty ring. */
    constructor (disk: seq<Block>)
      ensures Valid() && this.disk == disk && forall b: nat :: b < |disk| ==> Read(b) == disk[b]
    {
      this.disk := disk;
      buf := seq(NBUF + 1, _ => Buf(0, 0, false, false, 0, 0, ZeroBlock(), HEAD, HEAD));
      ring, stamp, clock := [], seq(NBUF, i => i), NBUF;
      new;
      var b := 0;
      while b < NBUF
        invariant b <= NBUF && |buf| == NBUF + 1 && Nodes(ring) && Linked(buf, ring) && |ring| == b
        invariant (forall i :: 0 <= i < b ==> ring[i] == b - 1 - i) && clock == NBUF && this.disk == disk
        invariant |stamp| == NBUF && forall i :: 0 <= i < NBUF ==> stamp[i] == i
        invariant forall i :: 0 <= i < NBUF ==>
          buf[i].dev == 0 && buf[i].blockno == 0 && !buf[i].valid && !buf[i].dirty && buf[i].refcnt == 0 && buf[i].holder == 0
      {
        Front(b);
        b := b + 1;
      }
      forall i: nat | i < NBUF ensures i in ring { assert ring[NBUF - 1 - i] == i; }
    }

    /** Push b on the front of the ring. */
    method Front(b: nat)
      requires |buf| == NBUF + 1 && Nodes(ring) && Linked(buf, ring) && b < NBUF && b !in ring
      modifies this`buf, this`ring
      ensures |buf| == NBUF + 1 && Linked(buf, ring) && ring == [b] + old(ring)
      ensures forall i :: 0 <= i <= NBUF ==> buf[i] == old(buf[i]).(prev := buf[i].prev, next := buf[i].next)
    {
      hide Linked;
      PushReady(buf, ring);
      PushFront(buf, ring, b);
      buf := SetNext(buf, b, buf[HEAD].next);
      buf := SetPrev(buf, b, HEAD);
      buf := SetPrev(buf, buf[HEAD].next, b);
      buf := SetNext(buf, HEAD, b);
      ring := [b] + ring;
    }

    /** bget's first loop: the buffer of a block, if it has one. */
    method Find(dev: nat, blockno: nat) returns (found: bool, b: nat)
      requires Valid()
      ensures found ==> Holds(buf, b, dev, blockno)
      ensures !found ==> forall j: nat :: !Holds(buf, j, dev, blockno)
    {
      assert LinkAt(buf, ring, 0);
      b := buf[HEAD].next;
      ghost var k := 1;
      while b != HEAD
        invariant 1 <= k <= NBUF + 1 && b == Node(ring, k)
        invariant forall m: nat :: m < k - 1 ==> !Holds(buf, ring[m], dev, blockno)
        decreases NBUF + 1 - k
      {
        if buf[b].dev == dev && buf[b].blockno == blockno { return true, b; }
        assert LinkAt(buf, ring, k);
        b, k := buf[b].next, k + 1;
      }
      forall j: nat ensures !Holds(buf, j, dev, blockno) {
        if j < NBUF {
          assert j in ring;
          var m :| 0 <= m < |ring| && ring[m] == j;
        }
      }
      found := false;
    }

    /** bget's second loop: the least recently released idle buffer. */
    method FindIdle() returns (found: bool, b: nat)
      requires Valid()
      ensures found ==> b < NBUF && Idle(buf[b]) && forall j: nat :: j < NBUF && Idle(buf[j]) && j != b ==> stamp[j] > stamp[b]
      ensures !found ==> forall j: nat :: j < NBUF ==> !Idle(buf[j])
    {
      assert LinkAt(buf, ring, NBUF);
      b := buf[HEAD].prev;
      ghost var k := NBUF;
      while b != HEAD
        invariant 0 <= k <= NBUF && b == Node(ring, k)
        invariant forall m: nat :: k <= m < NBUF ==> !Idle(buf[ring[m]])
        decreases k
      {
        if buf[b].refcnt == 0 && !buf[b].dirty {
          forall j: nat | j < NBUF && Idle(buf[j]) && j != b ensures stamp[j] > stamp[b] {
            assert j in ring;
            var m :| 0 <= m < |ring| && ring[m] == j;
            assert m < k - 1 && ring[k-1] == b;
          }
          return true, b;
        }
        assert LinkAt(buf, ring, k - 1);
        b, k := buf[b].prev, k - 1;
      }
      forall j: nat | j < NBUF ensures !Idle(buf[j]) {
        assert j in ring;
        var m :| 0 <= m < |ring| && ring[m] == j;
      }
      found := false;
    }

    /** bget up to acquiresleep; false is the panic "no buffers". */
    method Bget(dev: nat, blockno: nat) returns (ok: bool, b: nat)
      requires Valid()
      modifies this`buf
      ensures Valid() && SameLogical(old(buf), disk, buf, disk)
      ensures ok ==> Holds(buf, b, dev, blockno) && buf[b].refcnt >= 1
      ensures ok && (exists j: nat :: Holds(old(buf), j, dev, blockno)) ==>
                Holds(old(buf), b, dev, blockno) && buf == old(buf)[b := old(buf[b]).(refcnt := old(buf[b]).refcnt + 1)]
      ensures ok && (forall j: nat :: !Holds(old(buf), j, dev, blockno)) ==>
                Idle(old(buf[b])) && (forall j: nat :: j < NBUF && Idle(old(buf[j])) && j != b ==> stamp[j] > stamp[b])
                && buf == old(buf)[b := old(buf[b]).(dev := dev, blockno := blockno, valid := false, dirty := false, refcnt := 1)]
      ensures !ok <==> NoBuffers(old(buf), dev, blockno)
      ensures !ok ==> unchanged(this)
    {
      hide Linked, Unique, Ring, Recency;
      ok, b := Find(dev, blockno);
      if ok {
        buf := buf[b := buf[b].(refcnt := buf[b].refcnt + 1)];
        ContentsLogical(old(buf), buf, disk);
        SameLinks(old(buf), buf, ring);
        return;
      }
      ok, b := FindIdle();
      if ok {
        ghost var buf0 := buf;
        buf := buf[b := buf[b].(dev := dev, blockno := blockno, valid := false, dirty := false, refcnt := 1)];
        RecycleLogical(buf0, disk, b, dev, blockno, buf);
        SameLinks(buf0, buf, ring);
      } else {
        ContentsLogical(buf, buf, disk);
      }
    }

    /** iderw of memide.c: write a dirty buffer, or read one that is not valid. */
    method Iderw(b: nat, pid: nat) returns (r: DiskResult)
      requires |buf| == NBUF + 1 && b < NBUF
      modifies this`buf, this`disk
      ensures r == DiskTest(old(buf[b]), pid, |old(disk)|)
      ensures r != Served ==> unchanged(this)
      ensures r == Served && old(buf[b]).dirty ==>
        disk == old(disk)[old(buf[b]).blockno := old(buf[b]).data] && buf == old(buf)[b := old(buf[b]).(dirty := false, valid := true)]
      ensures r == Served && !old(buf[b]).dirty ==>
        disk == old(disk) && buf == old(buf)[b := old(buf[b]).(data := disk[old(buf[b]).blockno], valid := true)]
    {
      if buf[b].holder != pid { return NotLocked; }
      if buf[b].valid && !buf[b].dirty { return NothingToDo; }
      if buf[b].dev != 1 { return WrongDisk; }
      if buf[b].blockno >= |disk| { return OutOfRange; }
      if buf[b].dirty {
        buf := buf[b := buf[b].(dirty := false)];
        disk := disk[buf[b].blockno := buf[b].data];
      } else {
        buf := buf[b := buf[b].(data := disk[buf[b].blockno])];
      }
      buf := buf[b := buf[b].(valid := true)];
      r := Served;
    }

    /** bread: it gets the buffer, or sleeps in acquiresleep with a reference that keeps the buffer
        from being recycled, or panics. */
    method Bread(dev: nat, blockno: nat, pid: nat) returns (r: ReadResult, b: nat)
      requires Valid() && pid != 0
      modifies this`buf, this`disk
      ensures r == Asleep ==> Holds(old(buf), b, dev, blockno) && old(buf[b]).holder != 0
      ensures r == Asleep ==> buf == old(buf)[b := old(buf[b]).(refcnt := old(buf[b]).refcnt + 1)]
      ensures r != Asleep ==> NoBuffers(old(buf), dev, blockno) || (b < NBUF && old(buf[b]).holder == 0)
      ensures r != Asleep ==> (r == Panicked <==> NoBuffers(old(buf), dev, blockno) || dev != 1 || blockno >= |old(disk)|)
      ensures r != Panicked ==> Valid() && disk == old(disk) && SameLogical(old(buf), old(disk), buf, disk)
      ensures r == Got ==> Holds(buf, b, dev, blockno) && buf[b].valid && buf[b].holder == pid
      ensures r == Got ==> buf[b].data == Logical(old(buf), old(disk), blockno)
      // one reference more, and no other buffer is touched
      ensures r == Got ==> buf[b].refcnt == if Holds(old(buf), b, dev, blockno) then old(buf[b]).refcnt + 1 else 1
      ensures r == Got ==> forall j :: 0 <= j <= NBUF && j != b ==> buf[j] == old(buf[j])
    {
      hide Linked, Unique, Ring, Recency, Logical, Coherent;
      var ok;
      ok, b := Bget(dev, blockno);
      if !ok { return Panicked, b; }
      if buf[b].holder != 0 {
        assert Holds(old(buf), b, dev, blockno) by { FoundHeld(old(buf), disk, buf, b, dev, blockno); }
        return Asleep, b;
      }
      ok := Locked(b, pid);
      if !ok { return Panicked, b; }
      return Got, b;
    }

    /** The rest of bget and bread, once the buffer's lock is free. */
    method Locked(b: nat, pid: nat) returns (ok: bool)
      requires Valid() && pid != 0 && b < NBUF && buf[b].holder == 0 && buf[b].refcnt >= 1
      modifies this`buf, this`disk
      ensures ok <==> old(buf[b]).dev == 1 && old(buf[b]).blockno < |old(disk)|
      ensures ok ==> Valid() && disk == old(disk) && SameLogical(old(buf), old(disk), buf, disk)
      ensures ok ==> Holds(buf, b, 1, old(buf[b]).blockno) && buf[b].valid && buf[b].holder == pid
      ensures ok ==> buf[b].data == Logical(old(buf), old(disk), old(buf[b]).blockno)
      ensures ok ==> buf == old(buf)[b := old(buf[b]).(holder := pid, valid := true, data := buf[b].data)]
    {
      hide Linked, Unique, Ring, Recency, Logical;
      ghost var buf1 := buf;
      buf := buf[b := buf[b].(holder := pid)];
      ContentsLogical(buf1, buf, disk);
      SameLinks(buf1, buf, ring);
      ghost var buf2 := buf;
      ok := true;
      if !buf[b].valid {
        var r := Iderw(b, pid);
        ok := r == Served;
        if ok {
          SameLinks(buf2, buf, ring);
          FillLogical(buf2, disk, b, buf1[b].blockno, buf);
        }
      } else {
        assert Cached(buf, b, buf1[b].blockno);
        LogicalAt(buf, disk, buf1[b].blockno, b);
      }
    }

    /** bwrite: the block on disk becomes what the buffer holds. */
    method Bwrite(b: nat, pid: nat) returns (ok: bool)
      requires Valid() && pid != 0 && b < NBUF
      modifies this`buf, this`disk
      ensures ok <==> old(buf[b]).holder == pid && old(buf[b]).dev == 1 && old(buf[b]).blockno < |old(disk)|
      ensures ok ==> Valid() && buf[b].data == old(buf[b]).data && !buf[b].dirty && buf[b].valid
      ensures ok ==> disk == old(disk)[old(buf[b]).blockno := buf[b].data] && Holds(buf, b, 1, old(buf[b]).blockno)
      ensures ok ==> buf == old(buf)[b := old(buf[b]).(dirty := false, valid := true)]
      ensures ok ==> Logical(buf, disk, old(buf[b]).blockno) == buf[b].data
      ensures ok ==> forall c: nat :: c < |disk| && c != old(buf[b]).blockno ==> Logical(buf, disk, c) == Logical(old(buf), old(disk), c)
    {
      hide Linked, Unique, Ring, Recency, Logical;
      if buf[b].holder != pid { return false; }
      ghost var buf0, disk0 := buf, disk;
      buf := buf[b := buf[b].(dirty := true)];
      var r := Iderw(b, pid);
      if r != Served { return false; }
      assert buf == buf0[b := buf0[b].(dirty := false, valid := true)];
      SameLinks(buf0, buf, ring);
      assert Cached(buf, b, buf0[b].blockno);
      DataLogical(buf0, disk0, b, buf0[b].blockno, buf, disk);
      WriteCoherent(buf0, disk0, b, buf);
      ok := true;
    }

    /** The holder changes the data and passes the buffer to log_write, which pins it. */
    method Change(b: nat, pid: nat, data: Block)
      requires Valid() && pid != 0 && b < NBUF && buf[b].holder == pid && buf[b].valid && buf[b].dev == 1 && buf[b].blockno < |disk|
      modifies this`buf
      ensures Valid() && buf == old(buf)[b := old(buf[b]).(data := data, dirty := true)]
      ensures Logical(buf, disk, old(buf[b]).blockno) == data && Holds(buf, b, 1, old(buf[b]).blockno)
      ensures forall c: nat :: c < |disk| && c != old(buf[b]).blockno ==> Logical(buf, disk, c) == Logical(old(buf), disk, c)
    {
      hide Linked, Unique, Ring, Recency, Logical;
      ghost var buf0 := buf;
      buf := buf[b := buf[b].(data := data, dirty := true)];
      SameLinks(buf0, buf, ring);
      assert Cached(buf, b, buf0[b].blockno);
      DataLogical(buf0, disk, b, buf0[b].blockno, buf, disk);
    }

    /** brelse: the last reference moves the buffer to the front of the ring. */
    method Brelse(b: nat, pid: nat) returns (ok: bool)
      requires Valid() && pid != 0 && b < NBUF
      modifies this`buf, this`ring, this`stamp, this`clock
      ensures ok <==> old(buf[b]).holder == pid
      ensures !ok ==> unchanged(this)
      ensures ok ==> Valid() && SameContents(old(buf), buf) && SameLogical(old(buf), disk, buf, disk)
      ensures ok ==> buf[b].holder == 0 && buf[b].refcnt == old(buf[b]).refcnt - 1
      ensures ok ==> forall j :: 0 <= j < NBUF && j != b ==> buf[j].holder == old(buf[j]).holder && buf[j].refcnt == old(buf[j]).refcnt
      ensures ok && buf[b].refcnt > 0 ==> ring == old(ring)
      ensures ok && buf[b].refcnt == 0 ==> exists k: nat :: k < NBUF && old(ring)[k] == b && ring == [b] + Without(old(ring), k)
    {
      hide Linked, Unique, Recency, Logical;
      if buf[b].holder != pid { return false; }
      ghost var buf0 := buf;
      buf := buf[b := buf[b].(holder := 0, refcnt := buf[b].refcnt - 1)];
      SameLinks(buf0, buf, ring);
      if buf[b].refcnt == 0 {
        MoveToFront(b);
      }
      ContentsLogical(buf0, buf, disk);
      ok := true;
    }

    /** b->next->prev = b->prev; b->prev->next = b->next */
    method TakeOut(b: nat, ghost k: nat)
      requires |buf| == NBUF + 1 && Nodes(ring) && Linked(buf, ring) && b < NBUF && k < |ring| && ring[k] == b
      modifies this`buf, this`ring
      ensures |buf| == NBUF + 1 && Linked(buf, ring) && ring == Without(old(ring), k)
      ensures forall i :: 0 <= i <= NBUF ==> buf[i] == old(buf[i]).(prev := buf[i].prev, next := buf[i].next)
    {
      hide Linked, Nodes;
      MoveReady(buf, ring, k);
      Unlink(buf, ring, k);
      buf := SetPrev(buf, buf[b].next, buf[b].prev);
      buf := SetNext(buf, buf[b].prev, buf[b].next);
      ring := Without(ring, k);
    }

    /** The relinking in brelse. */
    method MoveToFront(b: nat)
      requires |buf| == NBUF + 1 && Ring(ring) && Linked(buf, ring) && Recency(ring, stamp, clock) && b < NBUF
      modifies this`buf, this`ring, this`stamp, this`clock
      ensures |buf| == NBUF + 1 && Ring(ring) && Linked(buf, ring) && Recency(ring, stamp, clock)
      ensures exists k: nat :: k < NBUF && old(ring)[k] == b && ring == [b] + Without(old(ring), k)
      ensures forall i :: 0 <= i <= NBUF ==> buf[i] == old(buf[i]).(prev := buf[i].prev, next := buf[i].next)
    {
      hide Linked, Recency, Nodes;
      assert b in ring;
      ghost var k :| 0 <= k < NBUF && ring[k] == b;
      MoveRing(ring, k, stamp, clock);
      hide Ring, Without;
      TakeOut(b, k);
      Front(b);
      stamp, clock := stamp[b := clock], clock + 1;
    }
  }

  lemma PushReady(buf: seq<Buf>, ring: seq<nat>)
    requires Linked(buf, ring)
    ensures LinkAt(buf, ring, 0)
  {
  }

  lemma SameLinks(buf: seq<Buf>, buf': seq<Buf>, ring: seq<nat>)
    requires Linked(buf, ring) && |buf'| == |buf|
    requires forall i :: 0 <= i < |buf| ==> buf'[i].prev == buf[i].prev && buf'[i].next == buf[i].next
    ensures Linked(buf', ring)
  {
    forall k: nat | k <= |ring| ensures LinkAt(buf', ring, k) { assert LinkAt(buf, ring, k); }
  }

  datatype ReadResult = Got | Asleep | Panicked

  datatype DiskResult = Served | NotLocked | NothingToDo | WrongDisk | OutOfRange

  /** The tests of iderw, in order. */
  function DiskTest(b: Buf, pid: nat, disksize: nat): DiskResult {
    if b.holder != pid then NotLocked
    else if b.valid && !b.dirty then NothingToDo
    else if b.dev != 1 then WrongDisk
    else if b.blockno >= disksize then OutOfRange
    else Served
  }

  /** Reading a block into its buffer changes nothing anyone can see. */
  lemma FillLogical(buf: seq<Buf>, disk: seq<Block>, i: nat, b: nat, buf': seq<Buf>)
    requires |buf| == NBUF + 1 && Unique(buf) && Holds(buf, i, 1, b) && !buf[i].valid && b < |disk|
    requires buf' == buf[i := buf[i].(data := disk[b], valid := true)]
    ensures Unique(buf') && SameLogical(buf, disk, buf', disk) && buf'[i].data == Logical(buf, disk, b)
  {
    assert Cached(buf', i, b);
    DataLogical(buf, disk, i, b, buf', disk);
    assert forall j: nat :: Holds(buf, j, 1, b) ==> j == i;
    assert forall j: nat :: !Cached(buf, j, b);
  }

  lemma WriteCoherent(buf: seq<Buf>, disk: seq<Block>, i: nat, buf': seq<Buf>)
    requires |buf| == NBUF + 1 && i < NBUF && Coherent(buf, disk) && Unique(buf) && buf[i].dev == 1 && buf[i].blockno < |disk|
    requires buf' == buf[i := buf[i].(dirty := false, valid := true)]
    ensures Coherent(buf', disk[buf[i].blockno := buf[i].data])
  {
    forall j: nat | j < NBUF && j != i && buf[j].dev == 1 ensures buf[j].blockno != buf[i].blockno {
      assert Holds(buf, i, 1, buf[i].blockno) && Holds(buf, j, 1, buf[j].blockno);
    }
  }

  lemma MoveReady(buf: seq<Buf>, ring: seq<nat>, k: nat)
    requires |buf| == NBUF + 1 && Nodes(ring) && Linked(buf, ring) && k < |ring|
    ensures LinkAt(buf, ring, k) && LinkAt(buf, ring, k + 1)
    ensures buf[ring[k]].next <= NBUF && buf[ring[k]].prev <= NBUF && buf[ring[k]].next != ring[k]
  {
    assert LinkAt(buf, ring, k) && LinkAt(buf, ring, k + 1);
  }

  lemma MoveRing(ring: seq<nat>, k: nat, stamp: seq<nat>, clock: nat)
    requires Ring(ring) && k < NBUF && Recency(ring, stamp, clock)
    ensures var b, w := ring[k], Without(ring, k);
      |stamp| == NBUF && Nodes(w) && b !in w && Ring([b] + w) && Recency([b] + w, stamp[b := clock], clock + 1)
  {
    MovedNodes(ring, k);
    MovedRecency(ring, k, stamp, clock);
    var b, w := ring[k], Without(ring, k);
    forall j: nat | j < NBUF ensures j in [b] + w {
      MovedIn(ring, k, j);
    }
    hide Recency, Without;
  }

  lemma MovedNodes(ring: seq<nat>, k: nat)
    requires Nodes(ring) && k < |ring|
    ensures Nodes(Without(ring, k)) && ring[k] !in Without(ring, k) && Nodes([ring[k]] + Without(ring, k))
  {
  }

  lemma MovedIn(ring: seq<nat>, k: nat, j: nat)
    requires Ring(ring) && k < NBUF && j < NBUF
    ensures j in [ring[k]] + Without(ring, k)
  {
    hide Nodes;
    var w := Without(ring, k);
    assert j in ring;
    var m :| 0 <= m < NBUF && ring[m] == j;
    if m != k { assert w[if m < k then m else m - 1] == j; }
  }

  lemma MovedRecency(ring: seq<nat>, k: nat, stamp: seq<nat>, clock: nat)
    requires Nodes(ring) && |ring| == NBUF && k < NBUF && Recency(ring, stamp, clock)
    ensures |stamp| == NBUF && Recency([ring[k]] + Without(ring, k), stamp[ring[k] := clock], clock + 1)
  {
  }

  /** A recycled buffer is not locked. */
  lemma FoundHeld(was: seq<Buf>, disk: seq<Block>, now: seq<Buf>, b: nat, dev: nat, blockno: nat)
    requires |was| == NBUF + 1 && b < NBUF && Coherent(was, disk) && |now| == |was| && now[b].holder == was[b].holder != 0
    requires Idle(was[b]) || Holds(was, b, dev, blockno)
    ensures Holds(was, b, dev, blockno)
  {
  }
}
