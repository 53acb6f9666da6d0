/** balloc, bfree, bmap, itrunc, readi and writei of fs.c, and the write loop of file.c. */
module InodeCode {
  import opened Blocks
  import opened Dinodes
  import opened Inodes

  /** Slots in use keep their block; only slots of inum may be filled. */
  ghost predicate Grown(a: Fs, b: Fs, inum: nat) {
    && (forall i: nat, k: nat :: Ptr(a, i, k) != 0 ==> Ptr(b, i, k) == Ptr(a, i, k))
    && (forall i: nat, k: nat :: i != inum ==> Ptr(b, i, k) == Ptr(a, i, k))
  }

  /** Sizes and types are as before, and so are all other inodes. */
  ghost predicate SameInodes(a: Fs, b: Fs, inum: nat) {
    && b.inode.Keys == a.inode.Keys
    && (forall i :: i in a.inode && i != inum ==> b.inode[i] == a.inode[i])
    && (inum in a.inode ==> b.inode[inum] == a.inode[inum].(addrs := b.inode[inum].addrs))
  }

  lemma GrownMapped(a: Fs, b: Fs, inum: nat)
    requires Mapped(a) && Grown(a, b, inum) && SameInodes(a, b, inum)
    ensures Mapped(b)
  {
    hide Ptr;
    forall i: nat, bn: nat | InUse(b, i, bn) ensures bn < MAXFILE && Ptr(b, i, FileIdx(bn)) != 0 {
      assert InUse(a, i, bn);
    }
  }

  class FileSystem {
    const l: Layout
    var data: seq<Block>
    var inode: map<nat, Inode>     // the inode cache
    var logged: set<nat>           // blocks passed to log_write in this operation
    ghost var base: seq<Block>     // the blocks when the operation began
    ghost var trace: seq<LogRec>   // its calls of log_write, in order
    ghost var o: Owner

    ghost function S(): Fs
      reads this
    {
      Fs(data, inode)
    }

    /** The blocks have changed by log_write alone. */
    ghost predicate Traced()
      reads this
    {
      data == Replay(base, trace)
    }

    ghost predicate Valid()
      reads this
    {
      Inv(l, S(), o) && Traced()
    }

    /** The inode cache is write-through. */
    ghost predicate InStep()
      reads this
    {
      Synced(l, S())
    }

    /** A file system image that satisfies the invariant, with the inode cache in step with the disk. */
    constructor (l: Layout, data: seq<Block>, inode: map<nat, Inode>, ghost o: Owner)
      requires Inv(l, Fs(data, inode), o)
      ensures Valid() && this.l == l && S() == Fs(data, inode) && this.o == o && logged == {} && trace == []
    {
      this.l, this.data, this.inode, this.logged, this.o, base, trace := l, data, inode, {}, o, data, [];
    }

    method BeginOp()
      modifies this`logged, this`base, this`trace
      ensures logged == {} && base == data && trace == [] && Traced()
    {
      logged, base, trace := {}, data, [];
    }

    method LogWrite(b: nat, v: Block)
      requires b < |data| && Traced()
      modifies this`data, this`logged, this`trace
      ensures data == old(data)[b := v] && logged == old(logged) + {b} && Traced()
      ensures trace == old(trace) + [LogRec(b, v)]
    {
      data := data[b := v];
      logged := logged + {b};
      ReplayNext(base, trace, LogRec(b, v));
      trace := trace + [LogRec(b, v)];
    }

    /** balloc's inner loop: the first clear bit of the bitmap block of b0, within the disk */
    method FirstClear(bp: Block, b0: nat) returns (bi: nat)
      ensures bi <= BPB && forall c: nat :: c < bi ==> Bit(bp, c)
      ensures bi < BPB && b0 + bi < l.size ==> !Bit(bp, bi)
    {
      hide Bit;
      bi := 0;
      while bi < BPB && b0 + bi < l.size
        invariant bi <= BPB && forall c: nat :: c < bi ==> Bit(bp, c)
      {
        if !Bit(bp, bi) {
          return;
        }
        bi := bi + 1;
      }
    }

    /** balloc: the first free block, marked in use and zeroed; false is the panic "out of blocks". */
    method Balloc(ghost spare: set<nat>) returns (ok: bool, b: nat)
      requires Owned(l, S(), o, spare) && Traced()
      modifies this`data, this`logged, this`trace
      ensures Traced() && (ok ==> Low(l, old(data), data))
      ensures ok ==> b < l.size && !BitAt(l, old(data), b) && forall c: nat :: c < b ==> BitAt(l, old(data), c)
      ensures ok ==> S() == Allocated(l, old(S()), b) && logged == old(logged) + {BitmapBlock(l, b), b}
      ensures ok ==> MarkedUsed(l, old(data), data, b)
      ensures !ok ==> unchanged(this) && FreeBlocks(l, S()) == {}
    {
      hide Bit, OwnerOk, BitsOk, Replay, Low, MarkedUsed, Allocated;
      var b0 := 0;
      while b0 < l.size
        invariant b0 % BPB == 0 && unchanged(this)
        invariant forall c: nat :: c < b0 && c < l.size ==> BitAt(l, data, c)
      {
        var x := l.bmapstart + b0 / BPB;
        BitmapIsMeta(l, b0);
        var bp := data[x];
        var bi := FirstClear(bp, b0);
        forall c: nat | c < b0 + bi && c < l.size ensures BitAt(l, data, c) {
          if c >= b0 {
            InBitmapBlock(b0, c - b0);
          }
        }
        if bi < BPB && b0 + bi < l.size {
          InBitmapBlock(b0, bi);
          MarkUsed(b0 + bi, spare);
          return true, b0 + bi;
        }
        b0 := b0 + BPB;
      }
      return false, 0;
    }

    /** balloc's two writes, the bitmap and the zeroed block. */
    method MarkUsed(b: nat, ghost spare: set<nat>)
      requires Owned(l, S(), o, spare) && Traced() && b < l.size && !BitAt(l, data, b)
      modifies this`data, this`logged, this`trace
      ensures Traced() && Low(l, old(data), data) && MarkedUsed(l, old(data), data, b)
      ensures S() == Allocated(l, old(S()), b) && logged == old(logged) + {BitmapBlock(l, b), b}
    {
      hide Bit, OwnerOk, SetBit, BitsOk, Replay, Low, MarkedUsed;
      BitmapIsMeta(l, b);
      var x := l.bmapstart + b / BPB;
      var bp := data[x];
      assert b >= l.datastart by { FreeIsData(l, S(), o, spare, b); }
      LowRefl(l, data);
      LowWrite(l, data, data, x, SetBit(bp, b % BPB));
      LogWrite(x, SetBit(bp, b % BPB));
      LowWrite(l, old(data), data, b, ZeroBlock());
      LogWrite(b, ZeroBlock());
      NowUsed(l, old(data), data, b);
    }

    /** What bmap leaves alone, and what it logs. */
    twostate predicate BmapFrame(inum: nat, bn: nat, addr: nat)
      reads this
    {
      && Owned(l, S(), o, {}) && SameFiles(old(S()), S()) && Grown(old(S()), S(), inum) && SameInodes(old(S()), S(), inum)
      && addr == Ptr(S(), inum, FileIdx(bn)) != 0
      && (Ptr(old(S()), inum, FileIdx(bn)) != 0 ==> S() == old(S()) && logged == old(logged))
      && old(logged) <= logged
      && logged <= old(logged) + {addr, BitmapBlock(l, addr)}
                   + (if bn < NDIRECT then {} else IndirectBlocks(l, S(), inum))
      && OnlySlot(old(S()), S(), inum, bn) && Must(l, old(S()), S(), inum, bn) <= logged + {addr}
      && Uses(l, old(S()), old(o), S(), o, inum, Need(old(S()), inum, bn))
      && Low(l, old(data), data) && (Ptr(old(S()), inum, FileIdx(bn)) != 0 ==> trace == old(trace))
    }

    /** Fill ip->addrs[idx] if it is empty. */
    method FillAddr(inum: nat, idx: nat) returns (ok: bool, addr: nat)
      requires Owned(l, S(), o, {}) && Traced() && inum in inode && idx <= NDIRECT
      modifies this`data, this`inode, this`logged, this`trace, this`o
      ensures Traced() && (ok ==> Low(l, old(data), data))
      ensures Ptr(old(S()), inum, idx) != 0 ==> ok
      ensures ok ==> Owned(l, S(), o, {}) && SameFiles(old(S()), S()) && SameInodes(old(S()), S(), inum)
      ensures ok ==> addr == Ptr(S(), inum, idx) != 0
      ensures ok ==> if Ptr(old(S()), inum, idx) != 0 then S() == old(S()) && logged == old(logged) && trace == old(trace)
                     else SlotFilled(old(S()), S(), inum, idx, addr) && logged == old(logged) + {BitmapBlock(l, addr), addr}
      ensures ok ==> Took(l, old(o), o, Ptr(old(S()), inum, idx) == 0, addr)
      ensures !ok ==> Vacant(l, o) == {} && o == old(o)
    {
      hide MarkedUsed, MarkedFree, Bit, ZeroBlock, OwnerOk, BitsOk, Replay, Low;
      LowRefl(l, data);
      addr := inode[inum].addrs[idx];
      if addr != 0 { return true, addr; }
      ghost var s0 := S();
      ok, addr := Balloc({});
      if !ok { FreeIsVacant(l, s0, o); return; }
      AllocKeeps(l, s0, o, {}, addr);
      SlotsFiles(s0, S());
      assert {} + {addr} == {addr};
      AddrKeeps(l, S(), o, {addr}, inum, idx, addr);
      inode := inode[inum := inode[inum].(addrs := inode[inum].addrs[idx := addr])];
      o := o[addr := Slot(inum, idx)];
      assert {addr} - {addr} == {};
    }

    /** Fill entry j of the indirect block if it is empty. */
    method FillEntry(inum: nat, j: nat, ind: nat) returns (ok: bool, addr: nat)
      requires Owned(l, S(), o, {}) && Traced() && inum in inode && j < NINDIRECT && ind == Ptr(S(), inum, NDIRECT) != 0
      modifies this`data, this`logged, this`trace, this`o
      ensures Traced() && (ok ==> Low(l, old(data), data))
      ensures Ptr(old(S()), inum, NDIRECT + 1 + j) != 0 ==> ok
      ensures ok ==> Owned(l, S(), o, {}) && SameFiles(old(S()), S())
      ensures ok ==> addr == Ptr(S(), inum, NDIRECT + 1 + j) != 0
      ensures ok ==> if Ptr(old(S()), inum, NDIRECT + 1 + j) != 0 then S() == old(S()) && logged == old(logged) && trace == old(trace)
                     else SlotFilled(old(S()), S(), inum, NDIRECT + 1 + j, addr)
                          && logged == old(logged) + {BitmapBlock(l, addr), addr, ind}
      ensures ok ==> Took(l, old(o), o, Ptr(old(S()), inum, NDIRECT + 1 + j) == 0, addr)
      ensures !ok ==> Vacant(l, o) == {} && o == old(o)
    {
      hide MarkedUsed, MarkedFree, Bit, ZeroBlock, Word, SetWord, BitsOk, Low, Replay, OwnerOk, Ptr;
      InOwner(l, S(), o, inum, NDIRECT);
      EntryWord(S(), inum, j);
      LowRefl(l, data);
      addr := Word(data[ind], j);
      if addr != 0 { return true, addr; }
      ghost var s0 := S();
      ok, addr := Balloc({});
      if !ok { FreeIsVacant(l, s0, o); return; }
      AllocKeeps(l, s0, o, {}, addr);
      SlotsFiles(s0, S());
      assert {} + {addr} == {addr};
      assert Ptr(S(), inum, NDIRECT) == ind && Ptr(S(), inum, NDIRECT + 1 + j) == 0;
      EntryKeeps(l, S(), o, {addr}, inum, j, addr);
      LowWrite(l, old(data), data, ind, SetWord(data[ind], j, addr));
      LogWrite(ind, SetWord(data[ind], j, addr));
      o := o[addr := Slot(inum, NDIRECT + 1 + j)];
      assert {addr} - {addr} == {};
    }

    /** bmap: the block of a file's bn-th block, allocated if it is missing.  It panics exactly
        past the largest file, or when fewer blocks are free than it must allocate. */
    method Bmap(inum: nat, bn: nat) returns (ok: bool, addr: nat)
      requires Owned(l, S(), o, {}) && Traced() && inum in inode
      modifies this`data, this`inode, this`logged, this`trace, this`o
      ensures Traced()
      ensures ok <==> bn < MAXFILE && Need(old(S()), inum, bn) <= |FreeBlocks(l, old(S()))|
      ensures ok ==> BmapFrame(inum, bn, addr)
      // addrs[bn], or entry bn - NDIRECT of the indirect block
      ensures ok ==> |inode[inum].addrs| == NDIRECT + 1 && (bn < NDIRECT ==> addr == inode[inum].addrs[bn])
      ensures ok && bn >= NDIRECT ==>
        inode[inum].addrs[NDIRECT] < |data| && addr == Word(data[inode[inum].addrs[NDIRECT]], bn - NDIRECT)
    {
      hide Bit, Word, OwnerOk, BitsOk, Ptr, BitAt, Vacant, Replay;
      addr := 0;
      NoEntries(S(), inum, bn);
      NeedIs(S(), inum, bn);
      FreeIsVacant(l, S(), o);
      hide Need;
      ghost var o0 := o;
      if bn < NDIRECT {
        ok, addr := FillAddr(inum, bn);
        if ok {
          UsedOne(l, old(S()), o0, S(), o, inum, Ptr(old(S()), inum, bn) == 0, addr);
          SlotIs(l, S(), o, inum, bn);
        }
        return;
      }
      if bn - NDIRECT < NINDIRECT {
        var ind;
        ok, ind := FillAddr(inum, NDIRECT);
        if !ok { return; }
        ghost var s1, o1 := S(), o;
        UsedOne(l, old(S()), o0, s1, o1, inum, Ptr(old(S()), inum, NDIRECT) == 0, ind);
        ok, addr := FillEntry(inum, bn - NDIRECT, ind);
        if ok {
          UsedOne(l, s1, o1, S(), o, inum, Ptr(s1, inum, FileIdx(bn)) == 0, addr);
          UsedBoth(l, old(S()), o0, s1, o1, S(), o, inum,
                   if Ptr(old(S()), inum, NDIRECT) == 0 then 1 else 0, if Ptr(s1, inum, FileIdx(bn)) == 0 then 1 else 0);
          SlotIs(l, S(), o, inum, bn);
        }
        return;
      }
      return false, 0;
    }

    method Readi(inum: nat, off: nat, n: nat) returns (r: IoResult, dst: seq<Byte>)
      requires Valid() && inum in inode && off < TWO32 && n < TWO32
      modifies this`data, this`inode, this`logged, this`trace, this`o
      ensures Valid() && S() == old(S()) && logged == old(logged) && trace == old(trace)
      ensures inode[inum].typ == T_DEV ==> r == Device
      ensures inode[inum].typ != T_DEV ==>
        if off > inode[inum].size || off + n >= TWO32 then r == Fail
        else r == Done(|dst|) && dst == Clip(Content(S(), inum), off, n)
    {
      hide Inv, Peek, Content, Replay;
      dst := [];
      if inode[inum].typ == T_DEV { return Device, dst; }
      if off > inode[inum].size || (off + n) % TWO32 < off { return Fail, dst; }
      var n' := n;
      if off + n' > inode[inum].size { n' := inode[inum].size - off; }
      var tot, pos := 0, off;
      while tot < n'
        invariant tot <= n' && pos == off + tot && |dst| == tot
        invariant Valid() && S() == old(S()) && logged == old(logged) && trace == old(trace)
        invariant forall i: nat :: i < tot ==> dst[i] == Peek(S(), inum, off + i)
      {
        var m, piece := ReadChunk(inum, pos, n' - tot);
        dst := dst + piece;
        tot, pos := tot + m, pos + m;
      }
      ClipIs(S(), inum, off, n, dst);
      r := Done(n');
    }

    /** One turn of readi's loop. */
    method ReadChunk(inum: nat, pos: nat, left: nat) returns (m: nat, piece: seq<Byte>)
      requires Valid() && inum in inode && left > 0 && pos + left <= inode[inum].size
      modifies this`data, this`inode, this`logged, this`trace, this`o
      ensures Valid() && S() == old(S()) && logged == old(logged) && trace == old(trace)
      ensures 0 < m <= left && |piece| == m
      ensures forall i: nat :: i < m ==> piece[i] == Peek(S(), inum, pos + i)
    {
      hide Bit, Word, BitsOk, Replay, Low, Uses, Must, OnlySlot, Grown, SameFiles;
      assert InUse(S(), inum, pos / BSIZE);
      NeedIs(S(), inum, pos / BSIZE);
      hide Need;
      var ok, addr := Bmap(inum, pos / BSIZE);
      assert addr in o;
      var bp := data[addr];
      m := if left < BSIZE - pos % BSIZE then left else BSIZE - pos % BSIZE;
      piece := bp.bytes[pos % BSIZE .. pos % BSIZE + m];
      forall i: nat | i < m ensures piece[i] == Peek(S(), inum, pos + i) {
        SameBlock(pos, i);
      }
    }

    /** One turn of writei's loop: map the block, overwrite a piece of it, log it. */
    method WriteChunk(inum: nat, pos: nat, piece: seq<Byte>) returns (ok: bool, addr: nat)
      requires Valid() && inum in inode && |piece| > 0 && pos % BSIZE + |piece| <= BSIZE
      modifies this`data, this`inode, this`logged, this`trace, this`o
      ensures Traced() && (ok ==> Low(l, old(data), data))
      ensures ok ==> Valid() && Grown(old(S()), S(), inum) && SameInodes(old(S()), S(), inum)
      ensures ok ==> Written(old(S()), S(), inum, pos, piece)
      ensures ok ==> pos / BSIZE < MAXFILE && addr == Ptr(S(), inum, FileIdx(pos / BSIZE)) != 0
      ensures ok && Ptr(old(S()), inum, FileIdx(pos / BSIZE)) != 0 ==> inode == old(inode) && logged == old(logged) + {addr}
      ensures ok ==> old(logged) <= logged <= old(logged) + ChunkBlocks(l, S(), inum, pos / BSIZE)
      ensures ok ==> OnlySlot(old(S()), S(), inum, pos / BSIZE) && Must(l, old(S()), S(), inum, pos / BSIZE) <= logged
      ensures ok <==> pos / BSIZE < MAXFILE && Need(old(S()), inum, pos / BSIZE) <= |Vacant(l, old(o))|
      ensures ok ==> Uses(l, old(S()), old(o), S(), o, inum, Need(old(S()), inum, pos / BSIZE))
    {
      hide Bit, Word, BitsOk, OwnerOk, Peek, Need, Vacant, Low, Replay, Uses, OnlySlot, Must;
      FreeIsVacant(l, S(), o);
      ghost var s0 := S();
      ok, addr := Bmap(inum, pos / BSIZE);
      if !ok { return; }
      GrownMapped(s0, S(), inum);
      ghost var s1 := S();
      InOwner(l, s1, o, inum, FileIdx(pos / BSIZE));
      var bp := data[addr];
      var at := pos % BSIZE;
      var v: Block := RawBlock(bp.bytes[..at] + piece + bp.bytes[at + |piece|..]);
      DataKeeps(l, s1, o, inum, pos / BSIZE, v);
      ghost var logged1 := logged;
      LowWrite(l, old(data), data, addr, v);
      LogWrite(addr, v);
      SamePtrs(s0, s1, S(), inum);
      SameMust(l, s0, s1, S(), inum, pos / BSIZE);
      SameUses(l, s0, old(o), s1, S(), o, inum, Need(s0, inum, pos / BSIZE));
      SpliceBlock(s0, s1, S(), inum, pos, piece, v);
    }

    /** iupdate: the inode goes into its slot of its block, and nothing else changes. */
    method Iupdate(inum: nat)
      requires Valid() && inum in inode
      modifies this`data, this`logged, this`trace
      ensures Valid() && logged == old(logged) + {InodeBlock(l, inum)}
      ensures SameFiles(old(S()), S()) && SamePtr(old(S()), S())
      ensures forall b: nat :: BitAt(l, data, b) <==> BitAt(l, old(data), b)
      ensures forall i: nat :: InodeBlock(l, i) < l.bmapstart ==>
        DinodeAt(l, data, i) == if i == inum then inode[inum] else DinodeAt(l, old(data), i)
    {
      hide Inv, Store, Load, Ptr, BitAt, FileBlock, Storable;
      ghost var s0 := S();
      InodeStores(l, s0, o, inum);
      var x := inum / IPB + l.inodestart;
      LogWrite(x, Store(data[x], inum % IPB, inode[inum]));
      InodeWritten(l, s0, o, inum);
      forall i: nat ensures DinodeAt(l, data, i) == if i == inum then inode[inum] else DinodeAt(l, s0.data, i) {
        InodeElsewhere(l, s0, inum, i);
      }
    }

    /** ilock: what it reads is what the last iupdate wrote. */
    method Ilock(inum: nat) returns (ip: Inode)
      requires Valid() && inum in inode && InStep()
      ensures ip == inode[inum]
    {
      hide Load;
      ip := Load(data[inum / IPB + l.inodestart], inum % IPB);
    }

    /** writei's loop over blocks; false is balloc's panic. */
    method WriteBlocks(inum: nat, src: seq<Byte>, off: nat) returns (ok: bool, ghost w: set<nat>)
      requires Valid() && inum in inode && off <= inode[inum].size && off + |src| <= MAXFILE * BSIZE
      modifies this`data, this`inode, this`logged, this`trace, this`o
      ensures Traced() && (ok ==> Low(l, old(data), data))
      ensures ok ==> Valid() && SameInodes(old(S()), S(), inum) && Written(old(S()), S(), inum, off, src)
      ensures ok ==> Grown(old(S()), S(), inum)
      ensures ok ==> MappedTo(S(), inum, off + |src|)
      ensures ok && off + |src| <= old(inode[inum].size) ==> inode == old(inode)
      ensures ok ==> logged <= old(logged) + w && |w| <= Span(off, |src|) + NewBlocks(off, |src|) + 2
      ensures ok ==> Touched(l, old(S()), S(), inum, off / BSIZE, off / BSIZE + Span(off, |src|), logged)
      ensures var n := Missing(old(S()), inum, off / BSIZE, off / BSIZE + Span(off, |src|));
        && (ok <==> n <= |Vacant(l, old(o))|)
        && (ok ==> Uses(l, old(S()), old(o), S(), o, inum, n))
    {
      hide Missing, Need, Vacant, Uses, Replay, Low;
      LowRefl(l, data);
      hide Inv, Written, Ptr, Grown, Mapped, MappedTo, Fits, Span, NewBlocks, AllOf, ChunkBlocks, Touched, OnlySlot, Must;
      var n, tot, pos := |src|, 0, off;
      ghost var g := Tally({}, {}, {});
      w := {};
      StartWrite(l, S(), o, inum, off);
      TouchNone(l, S(), inum, off, logged);
      UseNone(l, S(), o, inum, off);
      while tot < n
        invariant tot <= n && pos == off + tot && (tot == 0 || tot == n || pos % BSIZE == 0)
        invariant Valid() && Grown(old(S()), S(), inum) && SameInodes(old(S()), S(), inum) && Low(l, old(data), data)
        invariant Written(old(S()), S(), inum, off, src[..tot]) && MappedTo(S(), inum, pos)
        invariant off + n <= old(inode[inum].size) ==> inode == old(inode)
        invariant logged <= old(logged) + AllOf(g) && Fits(l, S(), inum, off, tot, g)
        invariant Touched(l, old(S()), S(), inum, off / BSIZE, off / BSIZE + Span(off, tot), logged)
        invariant Uses(l, old(S()), old(o), S(), o, inum, Missing(old(S()), inum, off / BSIZE, off / BSIZE + Span(off, tot)))
      {
        var m := if n - tot < BSIZE - pos % BSIZE then n - tot else BSIZE - pos % BSIZE;
        ghost var s1, logged1 := S(), logged;
        ghost var o1 := o;
        BelowSize(l, s1, o, inum, pos);
        SpanNext(off, tot, m);
        MissingStep(l, old(S()), s1, inum, off / BSIZE, pos / BSIZE, logged);
        var addr;
        ok, addr := WriteChunk(inum, pos, src[tot..tot+m]);
        if !ok {
          SpanMono(off, tot + m, n);
          MissingMono(old(S()), inum, off / BSIZE, pos / BSIZE + 1, off / BSIZE + Span(off, n));
          TooFew(l, old(S()), old(o), s1, o1, inum, off / BSIZE, pos / BSIZE);
          return;
        }
        LowJoin(l, old(data), s1.data, data);
        WriteJoin(old(S()), s1, S(), inum, off, src, tot, m);
        MapsMore(old(S()), s1, S(), inum, pos, m);
        EntryNeedsIndirect(S(), inum, FileIdx(pos / BSIZE));
        PartialMapped(s1, inum, pos);
        g := Count(l, s1, S(), inum, off, tot, m, g, logged1, logged);
        GrownKeeps(s1, S(), inum);
        UsedBoth(l, old(S()), old(o), s1, o1, S(), o, inum,
                 Missing(old(S()), inum, off / BSIZE, pos / BSIZE), Need(s1, inum, pos / BSIZE));
        TouchNext(l, old(S()), s1, S(), inum, off / BSIZE, pos / BSIZE, logged1, logged);
        tot, pos := tot + m, pos + m;
      }
      assert src[..n] == src;
      UsesEnough(l, old(S()), old(o), S(), o, inum, off, n);
      ok, w := true, AllOf(g);
      Bounded(l, S(), inum, off, n, g);
    }

    /** writei, for an inode that is not a device. */
    method Writei(inum: nat, src: seq<Byte>, off: nat) returns (r: IoResult, ghost w: set<nat>)
      requires Valid() && inum in inode && off < TWO32 && |src| < TWO32
      modifies this`data, this`inode, this`logged, this`trace, this`o
      ensures old(inode[inum]).typ == T_DEV <==> r == Device
      ensures r == Fail <==> old(inode[inum]).typ != T_DEV && (off > old(inode[inum]).size || off + |src| > MAXFILE * BSIZE)
      ensures r == Fail || r == Device ==> unchanged(this)
      ensures r.Done? ==> r == Done(|src|) && Valid() && inode.Keys == old(inode.Keys)
      ensures r.Done? ==> Content(S(), inum) == Splice(Content(old(S()), inum), off, src)
      ensures r.Done? ==> inode[inum].typ == old(inode[inum]).typ
      ensures r.Done? ==> forall i :: i in old(inode) && i != inum ==>
                inode[i] == old(inode[i]) && Content(S(), i) == Content(old(S()), i)
      // the inode cache stays write-through
      ensures r.Done? && old(InStep()) ==> InStep()
      ensures r.Done? ==> logged <= old(logged) + w && |w| <= Cost(off, |src|)
      ensures r.Done? ==> Touched(l, old(S()), S(), inum, off / BSIZE, off / BSIZE + Span(off, |src|), logged)
      ensures r.Done? && off + |src| > old(inode[inum]).size && |src| > 0 ==> InodeBlock(l, inum) in logged
      // the panic is exactly balloc's: fewer blocks are free than the range must allocate
      ensures r == Panic <==>
        && old(inode[inum]).typ != T_DEV && !WriteFails(old(inode[inum]).size, off, |src|)
        && Missing(old(S()), inum, off / BSIZE, off / BSIZE + Span(off, |src|)) > |FreeBlocks(l, old(S()))|
      ensures r.Done? ==> Grown(old(S()), S(), inum)
      ensures r.Done? ==>
        Uses(l, old(S()), old(o), S(), o, inum, Missing(old(S()), inum, off / BSIZE, off / BSIZE + Span(off, |src|)))
    {
      hide Missing, Uses, Grown, Synced, Replay, Inv, Content, Splice, Span, Touched, Cost, FreeBlocks;
      w := {};
      if inode[inum].typ == T_DEV { return Device, w; }
      var sum := (off + |src|) % TWO32;
      SizeBound(l, S(), o, inum);
      if off > inode[inum].size || sum < off { return Fail, w; }
      if sum > MAXFILE * BSIZE { return Fail, w; }
      var ok;
      ok, w := WriteAll(inum, src, off);
      if !ok { return Panic, w; }
      r := Done(|src|);
    }

    /** writei after its tests; false is balloc's panic. */
    method WriteAll(inum: nat, src: seq<Byte>, off: nat) returns (ok: bool, ghost w: set<nat>)
      requires Valid() && inum in inode && off <= inode[inum].size && off + |src| <= MAXFILE * BSIZE
      modifies this`data, this`inode, this`logged, this`trace, this`o
      ensures ok ==> Valid() && WriteDone(l, old(S()), old(o), S(), o, inum, off, src, logged)
      ensures ok ==> logged <= old(logged) + w && |w| <= Cost(off, |src|)
      ensures ok <==> Missing(old(S()), inum, off / BSIZE, off / BSIZE + Span(off, |src|)) <= |FreeBlocks(l, old(S()))|
    {
      hide Missing, Uses, Vacant, Grown, DinodeAt, InodeBlock, Low, SameFiles, SamePtr, Replay, WriteDone;
      hide Inv, Ptr, Written, MappedTo, Span, NewBlocks, Touched;
      ghost var s0 := S();
      FreeVacant(l, s0, o);
      ghost var ws;
      ok, ws := WriteBlocks(inum, src, off);
      w := ws;
      if !ok { return; }
      ghost var s1, wrote := S(), logged;
      Grow(inum, off + |src|, |src| > 0);
      Union(ws, {InodeBlock(l, inum)});
      w := ws + {InodeBlock(l, inum)};
      FinishWrite(l, s0, old(o), s1, S(), o, inum, off, src, wrote, logged);
    }

    /** The end of writei: a write past the end moves the end, on disk too. */
    method Grow(inum: nat, end: nat, some: bool)
      requires Valid() && inum in inode && end <= MAXFILE * BSIZE && MappedTo(S(), inum, end)
      modifies this`data, this`inode, this`logged, this`trace
      ensures Valid() && old(logged) <= logged <= old(logged) + {InodeBlock(l, inum)}
      ensures SameFiles(old(S()), S()) && SamePtr(old(S()), S())
      ensures if some && end > old(inode[inum]).size
              then inode == old(inode)[inum := old(inode[inum]).(size := end)] && InodeBlock(l, inum) in logged
              else inode == old(inode) && data == old(data)
      ensures forall i: nat :: InodeBlock(l, i) < l.bmapstart ==>
        DinodeAt(l, data, i) == if i == inum && some && end > old(inode[inum]).size then inode[inum] else DinodeAt(l, old(data), i)
    {
      hide Inv, Ptr, MappedTo, FileBlock, DinodeAt, BitAt;
      if some && end > inode[inum].size {
        SizeKeeps(l, S(), o, inum, end);
        ghost var s0 := S();
        inode := inode[inum := inode[inum].(size := end)];
        SizeSame(s0, S(), inum, end);
        Iupdate(inum);
      }
    }

    /** filewrite on an inode: chunks of at most 1536 bytes, one log operation each.
        `peak` is the largest number of blocks any of these operations logged. */
    method FileWrite(inum: nat, src: seq<Byte>, off: nat) returns (r: IoResult, end: nat, ghost peak: nat)
      requires Valid() && inum in inode && inode[inum].typ != T_DEV && off < TWO32 && |src| < TWO32 && off + |src| < TWO32
      modifies this`data, this`inode, this`logged, this`base, this`trace, this`o
      ensures peak <= 10
      ensures r != Panic ==> Valid() && inode.Keys == old(inode.Keys) && off <= end && end - off <= |src|
      ensures r != Panic ==> off <= |Content(old(S()), inum)| || end == off
      ensures r != Panic ==> r == Done(|src|) || r == Fail
      ensures r.Done? ==> end == off + |src|
      ensures r != Panic && end > off ==> Content(S(), inum) == Splice(Content(old(S()), inum), off, src[..end - off])
      ensures r != Panic && end == off ==> Content(S(), inum) == Content(old(S()), inum)
      ensures r != Panic ==> forall i :: i in old(inode) && i != inum ==> Content(S(), i) == Content(old(S()), i)
      ensures r != Panic && old(InStep()) ==> InStep()
      // it stops early only where a single write of the next chunk would fail
      ensures r == Fail <==> r != Panic && end < off + |src|
      ensures r == Fail ==> WriteFails(inode[inum].size, end, Chunk(off + |src| - end))
      // it panics only for want of blocks, and what it has written it had the blocks for
      ensures r == Panic ==> Missing(old(S()), inum, off / BSIZE, off / BSIZE + Span(off, |src|)) > |FreeBlocks(l, old(S()))|
      ensures r != Panic ==> Missing(old(S()), inum, off / BSIZE, off / BSIZE + Span(off, end - off)) <= |FreeBlocks(l, old(S()))|
    {
      hide Inv, Content, Splice, Cost, Missing, Uses, Grown, Touched, FreeBlocks, Span, Paid, Synced, Replay, InodeBlock;
      ghost var s0, o0 := S(), o;
      PaidNone(l, s0, o0, inum, off);
      peak, end := 0, off;
      var i := 0;
      while i < |src|
        invariant i <= |src| && end == off + i && peak <= 10
        invariant Valid() && inode.Keys == old(inode.Keys) && inode[inum].typ != T_DEV
        invariant old(InStep()) ==> InStep()
        invariant forall x :: x in old(inode) && x != inum ==> Content(S(), x) == Content(old(S()), x)
        invariant i == 0 ==> Content(S(), inum) == Content(old(S()), inum)
        invariant i > 0 ==> off <= |Content(old(S()), inum)| && Content(S(), inum) == Splice(Content(old(S()), inum), off, src[..i])
        invariant Paid(l, s0, o0, S(), o, inum, off, i)
      {
        var n1 := Chunk(|src| - i);
        BeginOp();
        ghost var c := Content(S(), inum);
        ContentSize(S(), inum);
        ghost var s1, o1 := S(), o;
        ghost var w;
        r, w := Writei(inum, src[i..i+n1], end);
        if r == Panic {
          PaidShort(l, s0, o0, s1, o1, inum, off, i, n1, |src|);
          return;
        }
        if r == Fail {
          PaidEnough(l, s0, o0, s1, o1, inum, off, i);
          return;
        }
        PaidNext(l, s0, o0, s1, o1, S(), o, inum, off, i, n1, logged);
        ChunkFits(end, n1);
        Subset(logged, w);
        peak := if |logged| > peak then |logged| else peak;
        SpliceJoin(Content(old(S()), inum), c, off, src, i, n1);
        i, end := i + n1, end + n1;
      }
      assert src[..|src|] == src;
      PaidEnough(l, s0, o0, S(), o, inum, off, |src|);
      r := Done(|src|);
    }

    /** bfree; false is the panic "freeing free block". */
    method Bfree(b: nat) returns (ok: bool)
      requires Shape(l, S()) && Traced() && b < l.size
      modifies this`data, this`logged, this`trace
      ensures Traced() && Low(l, old(data), data)
      ensures ok <==> BitAt(l, old(data), b)
      ensures ok ==> S() == Freed(l, old(S()), b) && logged == old(logged) + {BitmapBlock(l, b)}
      ensures ok ==> MarkedFree(l, old(data), data, b)
      ensures !ok ==> unchanged(this)
    {
      hide Bit, ClearBit;
      BitmapIsMeta(l, b);
      var x := l.bmapstart + b / BPB;
      if !Bit(data[x], b % BPB) { return false; }
      ClearBitAt(l, data, b);
      LogWrite(x, ClearBit(data[x], b % BPB));
      ok := true;
    }

    /** Ownership and bitmap agree, except for the blocks already given back. */
    ghost predicate Consistent(gone: set<nat>)
      reads this
    {
      Shape(l, S()) && OwnerOk(l, S(), o) && BitsAre(l, S(), o.Keys - gone) && Traced()
    }

    /** Give back the block in ip->addrs[i] and clear the slot. */
    method FreeDirect(inum: nat, i: nat) returns (ok: bool)
      requires Consistent({}) && inum in inode && i < NDIRECT
      modifies this`data, this`inode, this`logged, this`trace, this`o
      ensures Low(l, old(data), data)
      ensures ok && Consistent({}) && o == old(o) - Holding(old(o), inum, i, i + 1)
      ensures SameOthers(old(S()), S(), inum) && inode[inum] == old(inode[inum]).(addrs := old(inode[inum]).addrs[i := 0])
    {
      hide MarkedUsed, MarkedFree, BitAt, Word, Freed, OwnerOk, Ptr, Holding, BitsAre, MarkedFree;
      ok := true;
      var addr := inode[inum].addrs[i];
      AddrPtr(S(), inum);
      ghost var s0, gone := S(), Holding(o, inum, i, i + 1);
      SlotHolding(l, S(), o, inum, i);
      if addr != 0 {
        FreedKeeps(l, s0, o, o.Keys - {}, addr);
        FreedBit(l, s0, o.Keys - {}, addr);
        ok := Bfree(addr);
        ghost var s1 := S();
        EmptyAddr(l, s1, o, inum, i);
        inode := inode[inum := inode[inum].(addrs := inode[inum].addrs[i := 0])];
        OthersFrom(s0, s1, S(), inum, i, i + 1);
        o := o - gone;
        assert o.Keys - {} == old(o).Keys - {} - {addr};
        BitsSame(l, s1, S(), o.Keys - {});
      } else {
        assert o - gone == o && inode[inum].addrs[i := 0] == inode[inum].addrs;
        OthersRefl(s0, inum);
      }
    }

    /** Give back the entries of the indirect block; the slots stay until the block itself goes. */
    method FreeEntries(inum: nat, ind: nat) returns (ok: bool)
      requires Consistent({}) && inum in inode && ind == Ptr(S(), inum, NDIRECT) != 0
      modifies this`data, this`logged, this`trace
      ensures Low(l, old(data), data)
      ensures ok && Consistent(Holding(o, inum, NDIRECT + 1, NSLOTS)) && SameSlots(old(S()), S())
    {
      hide BitAt, Freed, OwnerOk, MarkedFree;
      ok := true;
      InOwnerOk(l, S(), o, inum, NDIRECT);
      var a := data[ind];
      var j := 0;
      assert Holding(o, inum, NDIRECT + 1, NDIRECT + 1) == {};
      while j < NINDIRECT
        invariant j <= NINDIRECT && ok && Consistent(Holding(o, inum, NDIRECT + 1, NDIRECT + 1 + j))
        invariant SameSlots(old(S()), S()) && Low(l, old(data), data)
        invariant forall m: nat :: m < NINDIRECT ==> Word(a, m) == Ptr(S(), inum, NDIRECT + 1 + m)
      {
        ghost var gone, next := Holding(o, inum, NDIRECT + 1, NDIRECT + 1 + j), Holding(o, inum, NDIRECT + 1, NDIRECT + 2 + j);
        EntryHolding(l, S(), o, inum, NDIRECT + 1 + j);
        if Word(a, j) != 0 {
          ghost var s0 := S();
          FreedKeeps(l, s0, o, o.Keys - gone, Word(a, j));
          ok := Bfree(Word(a, j));
          SlotsTrans(old(S()), s0, S());
          assert o.Keys - gone - {Word(a, j)} == o.Keys - next;
        } else {
          assert next == gone;
        }
        j := j + 1;
      }
    }

    method FreeIndirect(inum: nat) returns (ok: bool)
      requires Consistent({}) && inum in inode
      modifies this`data, this`inode, this`logged, this`trace, this`o
      ensures Low(l, old(data), data)
      ensures ok && Consistent({}) && o == old(o) - Holding(old(o), inum, NDIRECT, NSLOTS)
      ensures SameOthers(old(S()), S(), inum) && inode[inum] == old(inode[inum]).(addrs := old(inode[inum]).addrs[NDIRECT := 0])
    {
      hide BitAt, Word, Freed, OwnerOk, Ptr, Holding, BitsAre, MarkedFree;
      ok := true;
      ghost var s0, gone := S(), Holding(o, inum, NDIRECT, NSLOTS);
      var ind := inode[inum].addrs[NDIRECT];
      AddrPtr(S(), inum);
      if ind != 0 {
        ghost var some := Holding(o, inum, NDIRECT + 1, NSLOTS);
        IndirectHolding(l, S(), o, inum);
        ok := FreeEntries(inum, ind);
        ghost var s1 := S();
        FreedKeeps(l, s1, o, o.Keys - some, ind);
        FreedBit(l, s1, o.Keys - some, ind);
        ok := Bfree(ind);
        SlotsTrans(s0, s1, S());
        ghost var s2 := S();
        EmptyAddr(l, s2, o, inum, NDIRECT);
        inode := inode[inum := inode[inum].(addrs := inode[inum].addrs[NDIRECT := 0])];
        OthersFrom(s0, s2, S(), inum, NDIRECT, NSLOTS);
        o := o - gone;
        assert o.Keys - {} == old(o).Keys - some - {ind};
        BitsSame(l, s2, S(), o.Keys - {});
      } else {
        NoIndirect(l, S(), o, inum);
        assert o - gone == o && inode[inum].addrs[NDIRECT := 0] == inode[inum].addrs;
        OthersRefl(s0, inum);
      }
    }

    /** itrunc gives back every block of the inode, each once: no bfree finds its bit clear. */
    method Itrunc(inum: nat) returns (ok: bool)
      requires Valid() && inum in inode
      modifies this`data, this`inode, this`logged, this`trace, this`o
      ensures ok && Valid() && inode.Keys == old(inode.Keys)
      ensures inode[inum] == old(inode[inum]).(size := 0, addrs := Zeros(NDIRECT + 1))
      ensures old(InStep()) ==> InStep()
      ensures o == old(o) - Holding(old(o), inum, 0, NSLOTS)
      ensures forall b: nat :: b < l.size ==>
        (BitAt(l, data, b) <==> BitAt(l, old(data), b) && b !in Holding(old(o), inum, 0, NSLOTS))
      ensures forall i :: i in old(inode) && i != inum ==>
        inode[i] == old(inode[i]) && Content(S(), i) == Content(old(S()), i)
    {
      hide BitAt, OwnerOk, Ptr, Holding, SameOthers, BitsAre, Shape, Inv, Content, Replay, Synced, DinodeAt, InodeBlock, Low, SameFiles, SamePtr;
      ShapeOf(l, S(), o);
      ghost var s0, o0 := S(), o;
      ok := TruncBlocks(inum);
      ghost var s3 := S();
      Iupdate(inum);
      SameContents(s3, S());
      if Synced(l, s0) { WriteSynced(l, s0, s3, S(), inum); }
    }

    /** itrunc up to its iupdate. */
    method TruncBlocks(inum: nat) returns (ok: bool)
      requires Valid() && inum in inode
      modifies this`data, this`inode, this`logged, this`trace, this`o
      ensures ok && Valid() && inode.Keys == old(inode.Keys) && Low(l, old(data), data)
      ensures inode[inum] == old(inode[inum]).(size := 0, addrs := Zeros(NDIRECT + 1))
      ensures o == old(o) - Holding(old(o), inum, 0, NSLOTS)
      ensures forall b: nat :: b < l.size ==>
        (BitAt(l, data, b) <==> BitAt(l, old(data), b) && b !in Holding(old(o), inum, 0, NSLOTS))
      ensures forall i :: i in old(inode) && i != inum ==>
        inode[i] == old(inode[i]) && Content(S(), i) == Content(old(S()), i)
    {
      hide BitAt, OwnerOk, Ptr, Holding, SameOthers, BitsAre, Shape, Inv, Content, Replay, Low;
      ghost var s0, o0 := S(), o;
      StartTrunc(l, s0, o, inum);
      ok := FreeDirects(inum);
      ghost var s1 := S();
      var ok' := FreeIndirect(inum);
      ok := ok && ok';
      TruncStep(s0, s1, S(), o0, inum, NDIRECT, NSLOTS);
      LowJoin(l, s0.data, s1.data, data);
      assert inode[inum].addrs == Zeros(NDIRECT + 1);
      ghost var s2 := S();
      inode := inode[inum := inode[inum].(size := 0)];
      EndTrunc(l, s0, s2, S(), o0, o, inum);
    }

    /** itrunc's first loop. */
    method FreeDirects(inum: nat) returns (ok: bool)
      requires Consistent({}) && inum in inode
      modifies this`data, this`inode, this`logged, this`trace, this`o
      ensures Low(l, old(data), data)
      ensures ok && Consistent({}) && o == old(o) - Holding(old(o), inum, 0, NDIRECT)
      ensures SameOthers(old(S()), S(), inum) && inode.Keys == old(inode.Keys)
      ensures inode[inum] == old(inode[inum]).(addrs := Zeros(NDIRECT) + old(inode[inum]).addrs[NDIRECT..])
    {
      assert |inode[inum].addrs| == NDIRECT + 1;
      hide BitAt, OwnerOk, Ptr, Holding, SameOthers, BitsAre, Consistent, Shape;
      ok := true;
      ghost var s0, o0, ip := S(), o, inode[inum];
      OthersRefl(s0, inum);
      HoldingNone(o0, inum);
      var i := 0;
      while i < NDIRECT
        invariant i <= NDIRECT && ok && Consistent({}) && o == o0 - Holding(o0, inum, 0, i)
        invariant SameOthers(s0, S(), inum) && inode.Keys == old(inode.Keys) && Low(l, old(data), data)
        invariant inode[inum] == ip.(addrs := Zeros(i) + ip.addrs[i..])
      {
        ghost var s1 := S();
        ok := FreeDirect(inum, i);
        TruncStep(s0, s1, S(), o0, inum, i, i + 1);
        ZeroNext(ip.addrs, i);
        i := i + 1;
      }
    }
  }

  lemma ZeroNext(a: seq<nat>, i: nat)
    requires i < |a|
    ensures (Zeros(i) + a[i..])[i := 0] == Zeros(i + 1) + a[i+1..]
  {
  }

  lemma InBitmapBlock(b0: nat, bi: nat)
    requires b0 % BPB == 0 && bi < BPB
    ensures (b0 + bi) / BPB == b0 / BPB && (b0 + bi) % BPB == bi
  {
  }

  /** The indirect block of a file and the bitmap block that covers it. */
  function IndirectBlocks(l: Layout, fs: Fs, inum: nat): set<nat> {
    {Ptr(fs, inum, NDIRECT), BitmapBlock(l, Ptr(fs, inum, NDIRECT))}
  }

  datatype LogRec = LogRec(b: nat, data: Block)

  /** The blocks after a list of log_writes. */
  ghost function Replay(base: seq<Block>, trace: seq<LogRec>): seq<Block> {
    if trace == [] then base
    else
      var d, w := Replay(base, trace[..|trace| - 1]), trace[|trace| - 1];
      if w.b < |d| then d[w.b := w.data] else d
  }

  lemma ReplayNext(base: seq<Block>, trace: seq<LogRec>, w: LogRec)
    ensures Replay(base, trace + [w]) == var d := Replay(base, trace); if w.b < |d| then d[w.b := w.data] else d
  {
    assert (trace + [w])[..|trace|] == trace;
  }

  ghost predicate SamePtr(a: Fs, b: Fs) { forall i: nat, k: nat :: Ptr(b, i, k) == Ptr(a, i, k) }

  // ---- inodes on disk ----

  function DinodeAt(l: Layout, data: seq<Block>, inum: nat): Inode {
    Load(BlockAt(data, InodeBlock(l, inum)), inum % IPB)
  }

  /** Every inode is on disk as it is in memory. */
  ghost predicate Synced(l: Layout, fs: Fs) {
    forall i :: i in fs.inode ==> DinodeAt(l, fs.data, i) == fs.inode[i]
  }

  /** Nothing below the bitmap has changed. */
  ghost predicate Low(l: Layout, a: seq<Block>, b: seq<Block>) {
    |b| == |a| && forall x: nat :: x < l.bmapstart ==> BlockAt(b, x) == BlockAt(a, x)
  }

  lemma EntryWord(fs: Fs, inum: nat, j: nat)
    requires j < NINDIRECT && Ptr(fs, inum, NDIRECT) != 0
    ensures Ptr(fs, inum, NDIRECT + 1 + j) == Word(BlockAt(fs.data, Ptr(fs, inum, NDIRECT)), j)
  {
    hide Word;
  }

  lemma LowRefl(l: Layout, a: seq<Block>)
    ensures Low(l, a, a)
  {
  }

  lemma LowJoin(l: Layout, a: seq<Block>, b: seq<Block>, c: seq<Block>)
    requires Low(l, a, b) && Low(l, b, c)
    ensures Low(l, a, c)
  {
  }

  lemma LowWrite(l: Layout, a: seq<Block>, b: seq<Block>, x: nat, v: Block)
    requires Low(l, a, b) && l.bmapstart <= x < |b|
    ensures Low(l, a, b[x := v])
  {
  }

  /** A write keeps the cache in step: it either stores the inode or leaves it alone. */
  lemma WriteSynced(l: Layout, a: Fs, b: Fs, c: Fs, inum: nat)
    requires Synced(l, a) && Low(l, a.data, b.data) && c.inode.Keys == a.inode.Keys
    requires forall i :: i in a.inode ==> InodeBlock(l, i) < l.bmapstart && (i != inum ==> c.inode[i] == a.inode[i])
    requires forall i: nat :: InodeBlock(l, i) < l.bmapstart && i != inum ==> DinodeAt(l, c.data, i) == DinodeAt(l, b.data, i)
    requires inum in a.inode ==> DinodeAt(l, c.data, inum) == c.inode[inum] || (c.inode[inum] == a.inode[inum] && DinodeAt(l, c.data, inum) == DinodeAt(l, b.data, inum))
    ensures Synced(l, c)
  {
    hide DinodeAt, InodeBlock;
    forall i | i in c.inode ensures DinodeAt(l, c.data, i) == c.inode[i] {
      LowDinodes(l, a.data, b.data, i);
    }
  }

  lemma ShapeOf(l: Layout, fs: Fs, o: Owner)
    requires Inv(l, fs, o)
    ensures forall i :: i in fs.inode ==> InodeBlock(l, i) < l.bmapstart
  {
  }

  lemma LowDinodes(l: Layout, a: seq<Block>, b: seq<Block>, i: nat)
    requires Low(l, a, b) && InodeBlock(l, i) < l.bmapstart
    ensures DinodeAt(l, b, i) == DinodeAt(l, a, i)
  {
  }

  /** A free block is a data block. */
  lemma FreeIsData(l: Layout, fs: Fs, o: Owner, spare: set<nat>, b: nat)
    requires Owned(l, fs, o, spare) && b < l.size && !BitAt(l, fs.data, b)
    ensures b >= l.datastart
  {
  }

  lemma InodeStores(l: Layout, fs: Fs, o: Owner, inum: nat)
    requires Inv(l, fs, o) && inum in fs.inode
    ensures Storable(fs.inode[inum]) && 0 < InodeBlock(l, inum) < l.bmapstart <= l.datastart <= |fs.data|
  {
    SizeBound(l, fs, o, inum);
    var ip := fs.inode[inum];
    forall k | 0 <= k < |ip.addrs| ensures ip.addrs[k] < TWO32 {
      assert Ptr(fs, inum, k) == ip.addrs[k];
    }
  }

  function WithInode(l: Layout, fs: Fs, inum: nat): seq<Block>
    requires inum in fs.inode && Storable(fs.inode[inum]) && InodeBlock(l, inum) < |fs.data|
  {
    var x := InodeBlock(l, inum);
    fs.data[x := Store(fs.data[x], inum % IPB, fs.inode[inum])]
  }

  lemma InodeElsewhere(l: Layout, fs: Fs, inum: nat, i: nat)
    requires inum in fs.inode && Storable(fs.inode[inum]) && InodeBlock(l, inum) < |fs.data|
    ensures DinodeAt(l, WithInode(l, fs, inum), i) == if i == inum then fs.inode[inum] else DinodeAt(l, fs.data, i)
  {
    hide Store, Load, Storable;
    if InodeBlock(l, i) == InodeBlock(l, inum) {
      StoreLoad(fs.data[InodeBlock(l, i)], inum % IPB, fs.inode[inum], i % IPB);
    }
  }

  lemma InodeBits(l: Layout, fs: Fs, x: nat, v: Block, b: nat)
    requires x < l.bmapstart <= |fs.data|
    ensures BitAt(l, fs.data[x := v], b) <==> BitAt(l, fs.data, b)
  {
    hide Bit;
  }

  /** The store in iupdate. */
  lemma InodeWritten(l: Layout, fs: Fs, o: Owner, inum: nat)
    requires Inv(l, fs, o) && inum in fs.inode && Storable(fs.inode[inum]) && 0 < InodeBlock(l, inum) < l.bmapstart <= l.datastart <= |fs.data|
    ensures var t := fs.(data := WithInode(l, fs, inum));
      && Inv(l, t, o) && SameFiles(fs, t) && SamePtr(fs, t)
      && forall b: nat :: BitAt(l, t.data, b) <==> BitAt(l, fs.data, b)
  {
    hide Store, Storable, BitAt;
    var x := InodeBlock(l, inum);
    var t := fs.(data := WithInode(l, fs, inum));
    UnownedWrite(l, fs, o, x, t.data[x]);
    SlotsFiles(fs, t);
    forall b: nat ensures BitAt(l, t.data, b) <==> BitAt(l, fs.data, b) {
      InodeBits(l, fs, x, t.data[x], b);
    }
    hide Ptr;
    forall i: nat, bn: nat | InUse(t, i, bn) ensures bn < MAXFILE && Ptr(t, i, FileIdx(bn)) != 0 {
      assert InUse(fs, i, bn);
    }
  }

  lemma SizeSame(a: Fs, b: Fs, inum: nat, n: nat)
    requires inum in a.inode && b.data == a.data && b.inode == a.inode[inum := a.inode[inum].(size := n)]
    ensures SameFiles(a, b) && SamePtr(a, b)
  {
    forall i: nat, k: nat ensures Ptr(b, i, k) == Ptr(a, i, k) {
    }
    hide Ptr;
  }

  lemma SameContents(a: Fs, b: Fs)
    requires SameFiles(a, b) && b.inode == a.inode
    ensures forall i :: i in a.inode ==> Content(b, i) == Content(a, i)
  {
    hide FileBlock;
    forall i | i in a.inode ensures Content(b, i) == Content(a, i) {
      assert forall x: nat :: Peek(b, i, x) == Peek(a, i, x) by {
        forall x: nat ensures Peek(b, i, x) == Peek(a, i, x) {
          assert FileBlock(b, i, x / BSIZE) == FileBlock(a, i, x / BSIZE);
        }
      }
    }
  }

  /** One more bit is set, b is a block of zeros, and no other block changes. */
  ghost predicate MarkedUsed(l: Layout, was: seq<Block>, now: seq<Block>, b: nat) {
    && BitmapBlock(l, b) < |was| == |now| && b < |was|
    && (forall c: nat :: c < l.size ==> (BitAt(l, now, c) <==> c == b || BitAt(l, was, c)))
    && now == was[BitmapBlock(l, b) := now[BitmapBlock(l, b)]][b := ZeroBlock()]
  }

  /** One bit is cleared, and no other block changes. */
  ghost predicate MarkedFree(l: Layout, was: seq<Block>, now: seq<Block>, b: nat) {
    && BitmapBlock(l, b) < |was| == |now|
    && (forall c: nat :: BitAt(l, now, c) <==> c != b && BitAt(l, was, c))
    && now == was[BitmapBlock(l, b) := now[BitmapBlock(l, b)]]
  }

  lemma AllocatedBits(l: Layout, data: seq<Block>, b: nat)
    requires LayoutOk(l) && |data| == l.size && l.datastart <= b < l.size && !BitAt(l, data, b)
    ensures var x := BitmapBlock(l, b);
      forall c: nat :: c < l.size ==> (BitAt(l, data[x := SetBit(data[x], b % BPB)][b := ZeroBlock()], c) <==> c == b || BitAt(l, data, c))
  {
    var x := BitmapBlock(l, b);
    SetBitAt(l, data, b);
    BitmapIsMeta(l, b);
    assert !Bit(data[x], b % BPB);
    hide BitAt, SetBit, ZeroBlock;
    BitsFrame(l, data[x := SetBit(data[x], b % BPB)], b, ZeroBlock());
  }

  lemma NowUsed(l: Layout, was: seq<Block>, now: seq<Block>, b: nat)
    requires LayoutOk(l) && |was| == l.size && l.datastart <= b < l.size && !BitAt(l, was, b) && BitmapBlock(l, b) < |was|
    requires !Bit(was[BitmapBlock(l, b)], b % BPB)
    requires now == was[BitmapBlock(l, b) := SetBit(was[BitmapBlock(l, b)], b % BPB)][b := ZeroBlock()]
    ensures MarkedUsed(l, was, now, b)
  {
    AllocatedBits(l, was, b);
    BitmapIsMeta(l, b);
    hide BitAt, SetBit, ZeroBlock;
  }

  /** Where the bn-th block of a file is written down. */
  lemma SlotIs(l: Layout, fs: Fs, o: Owner, inum: nat, bn: nat)
    requires Owned(l, fs, o, {}) && inum in fs.inode && bn < MAXFILE && Ptr(fs, inum, FileIdx(bn)) != 0
    ensures var a := fs.inode[inum].addrs;
      && |a| == NDIRECT + 1
      && (bn < NDIRECT ==> Ptr(fs, inum, FileIdx(bn)) == a[bn])
      && (bn >= NDIRECT ==> a[NDIRECT] < |fs.data| && Ptr(fs, inum, FileIdx(bn)) == Word(fs.data[a[NDIRECT]], bn - NDIRECT))
  {
    hide Word, BitsOk;
    assert bn >= NDIRECT ==> Ptr(fs, inum, NDIRECT) == fs.inode[inum].addrs[NDIRECT] != 0;
  }

  datatype IoResult = Fail | Device | Done(n: nat) | Panic

  /** At most n bytes of c from off on. */
  function Clip(c: seq<Byte>, off: nat, n: nat): (r: seq<Byte>)
    requires off <= |c|
    ensures |r| == (if n <= |c| - off then n else |c| - off) && forall i :: 0 <= i < |r| ==> r[i] == c[off + i]
  {
    if off + n > |c| then c[off..] else c[off..off+n]
  }

  lemma ClipIs(fs: Fs, inum: nat, off: nat, n: nat, dst: seq<Byte>)
    requires inum in fs.inode && off <= fs.inode[inum].size
    requires |dst| == if off + n > fs.inode[inum].size then fs.inode[inum].size - off else n
    requires forall i: nat :: i < |dst| ==> dst[i] == Peek(fs, inum, off + i)
    ensures |Content(fs, inum)| == fs.inode[inum].size && dst == Clip(Content(fs, inum), off, n)
  {
    hide Peek;
  }

  lemma SameBlock(pos: nat, i: nat)
    requires pos % BSIZE + i < BSIZE
    ensures (pos + i) / BSIZE == pos / BSIZE && (pos + i) % BSIZE == pos % BSIZE + i
  {
  }

  /** Byte positions pos.. of one file hold the piece; every other byte of every file is as before. */
  ghost predicate Written(a: Fs, b: Fs, inum: nat, pos: nat, piece: seq<Byte>) {
    forall i: nat, x: nat ::
      Peek(b, i, x) == if i == inum && pos <= x < pos + |piece| then piece[x - pos] else Peek(a, i, x)
  }

  /** The blocks one turn of writei's loop may log. */
  function ChunkBlocks(l: Layout, fs: Fs, inum: nat, bn: nat): set<nat> {
    {Ptr(fs, inum, FileIdx(bn)), BitmapBlock(l, Ptr(fs, inum, FileIdx(bn)))}
      + if bn < NDIRECT then {} else IndirectBlocks(l, fs, inum)
  }

  lemma InOwner(l: Layout, fs: Fs, o: Owner, inum: nat, k: nat)
    requires Owned(l, fs, o, {}) && Ptr(fs, inum, k) != 0
    ensures l.bmapstart <= Ptr(fs, inum, k) < |fs.data| && Ptr(fs, inum, k) in o
  {
  }

  lemma SamePtrs(a: Fs, b: Fs, c: Fs, inum: nat)
    requires Mapped(b) && Grown(a, b, inum) && SameInodes(a, b, inum)
    requires c.inode == b.inode && forall i: nat, k: nat :: Ptr(c, i, k) == Ptr(b, i, k)
    ensures Mapped(c) && Grown(a, c, inum) && SameInodes(a, c, inum)
  {
    hide Ptr;
    forall i: nat, bn: nat | InUse(c, i, bn) ensures bn < MAXFILE && Ptr(c, i, FileIdx(bn)) != 0 {
      assert InUse(b, i, bn);
    }
  }

  lemma SpliceBlock(a: Fs, b: Fs, c: Fs, inum: nat, pos: nat, piece: seq<Byte>, v: Block)
    requires SameFiles(a, b) && pos % BSIZE + |piece| <= BSIZE
    requires forall i: nat, m: nat ::
      FileBlock(c, i, m) == if i == inum && m == pos / BSIZE then v else FileBlock(b, i, m)
    requires var bp, at := FileBlock(b, inum, pos / BSIZE), pos % BSIZE;
      v == RawBlock(bp.bytes[..at] + piece + bp.bytes[at + |piece|..])
    ensures Written(a, c, inum, pos, piece)
  {
    hide FileBlock;
    forall i: nat, x: nat
      ensures Peek(c, i, x) == if i == inum && pos <= x < pos + |piece| then piece[x - pos] else Peek(a, i, x)
    {
      assert FileBlock(b, i, x / BSIZE) == FileBlock(a, i, x / BSIZE);
      if i == inum && x / BSIZE == pos / BSIZE {
        assert x - pos == x % BSIZE - pos % BSIZE;
      } else if pos <= x < pos + |piece| {
        SameBlock(pos, x - pos);
      }
    }
  }

  /** The blocks a write of n bytes at off touches. */
  function Span(off: nat, n: nat): nat {
    if n == 0 then 0 else (off + n - 1) / BSIZE - off / BSIZE + 1
  }

  /** The blocks it can add to a file whose size is at least off: a partial first block is already there. */
  function NewBlocks(off: nat, n: nat): nat {
    if n == 0 || off % BSIZE == 0 then Span(off, n) else Span(off, n) - 1
  }

  /** Every block of a file below position pos is mapped. */
  ghost predicate MappedTo(fs: Fs, inum: nat, pos: nat) {
    forall bn: nat :: bn * BSIZE < pos ==> Ptr(fs, inum, FileIdx(bn)) != 0
  }

  lemma StartWrite(l: Layout, fs: Fs, o: Owner, inum: nat, off: nat)
    requires Inv(l, fs, o) && inum in fs.inode && off <= fs.inode[inum].size
    ensures MappedTo(fs, inum, off) && Written(fs, fs, inum, off, []) && Grown(fs, fs, inum)
    ensures Fits(l, fs, inum, off, 0, Tally({}, {}, {})) && AllOf(Tally({}, {}, {})) == {}
  {
    hide Ptr, Peek;
    forall bn: nat | bn * BSIZE < off ensures Ptr(fs, inum, FileIdx(bn)) != 0 {
      assert InUse(fs, inum, bn);
    }
  }

  lemma BelowSize(l: Layout, fs: Fs, o: Owner, inum: nat, pos: nat)
    requires Inv(l, fs, o) && inum in fs.inode
    ensures pos < fs.inode[inum].size ==> Ptr(fs, inum, FileIdx(pos / BSIZE)) != 0
  {
    hide Ptr;
    assert pos < fs.inode[inum].size ==> InUse(fs, inum, pos / BSIZE);
  }

  /** A partial first block is already there. */
  lemma PartialMapped(fs: Fs, inum: nat, pos: nat)
    requires MappedTo(fs, inum, pos)
    ensures pos % BSIZE != 0 ==> Ptr(fs, inum, FileIdx(pos / BSIZE)) != 0
  {
    assert pos % BSIZE != 0 ==> pos / BSIZE * BSIZE < pos;
  }

  lemma WriteJoin(a: Fs, b: Fs, c: Fs, inum: nat, off: nat, src: seq<Byte>, tot: nat, m: nat)
    requires tot + m <= |src| && Written(a, b, inum, off, src[..tot]) && Written(b, c, inum, off + tot, src[tot..tot+m])
    ensures Written(a, c, inum, off, src[..tot+m])
  {
    hide Peek;
  }

  lemma MapsMore(a: Fs, b: Fs, c: Fs, inum: nat, pos: nat, m: nat)
    requires Grown(a, b, inum) && Grown(b, c, inum) && SameInodes(a, b, inum) && SameInodes(b, c, inum)
    requires MappedTo(b, inum, pos) && Ptr(c, inum, FileIdx(pos / BSIZE)) != 0 && pos % BSIZE + m <= BSIZE
    ensures Grown(a, c, inum) && SameInodes(a, c, inum) && MappedTo(c, inum, pos + m)
  {
    hide Ptr;
    forall bn: nat | bn * BSIZE < pos + m ensures Ptr(c, inum, FileIdx(bn)) != 0 {
      if bn * BSIZE < pos { assert Ptr(b, inum, FileIdx(bn)) != 0; } else { assert bn == pos / BSIZE; }
    }
  }

  // ---- how many blocks a write logs ----

  /** File blocks, bitmap blocks, and the indirect block with its bitmap block. */
  datatype Tally = Tally(files: set<nat>, bitmaps: set<nat>, indirect: set<nat>)

  function AllOf(g: Tally): set<nat> { g.files + g.bitmaps + g.indirect }

  ghost predicate Fits(l: Layout, fs: Fs, inum: nat, off: nat, tot: nat, g: Tally) {
    && |g.files| <= Span(off, tot) && |g.bitmaps| <= NewBlocks(off, tot)
    && (g.indirect == {} || (Ptr(fs, inum, NDIRECT) != 0 && g.indirect == IndirectBlocks(l, fs, inum)))
  }

  lemma Bounded(l: Layout, fs: Fs, inum: nat, off: nat, n: nat, g: Tally)
    requires Fits(l, fs, inum, off, n, g)
    ensures |AllOf(g)| <= Span(off, n) + NewBlocks(off, n) + 2
  {
    hide Ptr;
    Union(g.files, g.bitmaps);
    Union(g.files + g.bitmaps, g.indirect);
  }

  lemma Union(a: set<nat>, b: set<nat>)
    ensures |a + b| <= |a| + |b|
  {
    assert |a + b| == |a| + |b| - |a * b|;
  }

  /** One more block written. */
  ghost function Count(l: Layout, a: Fs, b: Fs, inum: nat, off: nat, tot: nat, m: nat, g: Tally, was: set<nat>, now: set<nat>): (r: Tally)
    requires Fits(l, a, inum, off, tot, g) && Grown(a, b, inum) && m > 0 && (off + tot) % BSIZE + m <= BSIZE
    requires tot == 0 || (off + tot) % BSIZE == 0
    requires tot == 0 && off % BSIZE != 0 ==> Ptr(a, inum, FileIdx(off / BSIZE)) != 0
    requires var bn := (off + tot) / BSIZE;
      && was <= now <= was + ChunkBlocks(l, b, inum, bn)
      && (Ptr(a, inum, FileIdx(bn)) != 0 ==> now == was + {Ptr(b, inum, FileIdx(bn))})
      && Ptr(b, inum, FileIdx(bn)) != 0 && bn < MAXFILE && (bn >= NDIRECT ==> Ptr(b, inum, NDIRECT) != 0)
    ensures Fits(l, b, inum, off, tot + m, r) && now <= was + AllOf(r) && AllOf(g) <= AllOf(r)
  {
    var bn := (off + tot) / BSIZE;
    var addr := Ptr(b, inum, FileIdx(bn));
    assert Span(off, tot + m) == Span(off, tot) + 1;
    if Ptr(a, inum, FileIdx(bn)) != 0 then
      Union(g.files, {addr});
      g.(files := g.files + {addr})
    else
      Union(g.files, {addr});
      Union(g.bitmaps, {BitmapBlock(l, addr)});
      Tally(g.files + {addr}, g.bitmaps + {BitmapBlock(l, addr)},
            if bn < NDIRECT then g.indirect else IndirectBlocks(l, b, inum))
  }

  lemma EntryNeedsIndirect(fs: Fs, inum: nat, k: nat)
    ensures Ptr(fs, inum, k) != 0 && k > NDIRECT ==> Ptr(fs, inum, NDIRECT) != 0
  {
  }

  /** writei refuses to leave a hole or to exceed the largest file. */
  predicate WriteFails(size: nat, off: nat, n: nat) {
    off > size || off + n > MAXFILE * BSIZE
  }

  /** A file of a mapped file system is never longer than MAXFILE blocks. */
  lemma SizeBound(l: Layout, fs: Fs, o: Owner, inum: nat)
    requires Inv(l, fs, o) && inum in fs.inode
    ensures fs.inode[inum].size <= MAXFILE * BSIZE
  {
    if fs.inode[inum].size > MAXFILE * BSIZE { assert InUse(fs, inum, MAXFILE); }
  }

  lemma SizeKeeps(l: Layout, fs: Fs, o: Owner, inum: nat, size: nat)
    requires Inv(l, fs, o) && inum in fs.inode && MappedTo(fs, inum, size) && size <= MAXFILE * BSIZE
    ensures Inv(l, fs.(inode := fs.inode[inum := fs.inode[inum].(size := size)]), o)
  {
    hide BitAt, Word;
    var t := fs.(inode := fs.inode[inum := fs.inode[inum].(size := size)]);
    assert forall i: nat, k: nat :: Ptr(t, i, k) == Ptr(fs, i, k);
    assert Owned(l, t, o, {}) by { hide Ptr; }
    forall i: nat, bn: nat | InUse(t, i, bn) ensures bn < MAXFILE && Ptr(t, i, FileIdx(bn)) != 0 {
      if i != inum { assert InUse(fs, i, bn); } else { assert Ptr(fs, i, FileIdx(bn)) != 0; }
    }
  }

  /** The flat file after writing src at off. */
  function Splice(c: seq<Byte>, off: nat, src: seq<Byte>): (r: seq<Byte>)
    requires off <= |c|
    ensures |r| == if off + |src| > |c| then off + |src| else |c|
    ensures forall i :: 0 <= i < |r| ==> r[i] == if off <= i < off + |src| then src[i - off] else c[i]
  {
    c[..off] + src + if off + |src| < |c| then c[off + |src|..] else []
  }

  /** What was written is read back, whatever the read asks for beyond it. */
  lemma ReadBack(c: seq<Byte>, off: nat, src: seq<Byte>, n: nat)
    requires off <= |c| && n >= |src|
    ensures Clip(Splice(c, off, src), off, |src|) == src
    ensures off + |src| >= |c| ==> Clip(Splice(c, off, src), off, n) == src
    ensures src <= Clip(Splice(c, off, src), off, n)
  {
    var r := Clip(Splice(c, off, src), off, n);
    assert r[..|src|] == src;
    hide Clip, Splice;
  }

  lemma Spliced(a: Fs, b: Fs, c: Fs, inum: nat, off: nat, src: seq<Byte>)
    requires SameInodes(a, b, inum) && Written(a, b, inum, off, src) && inum in a.inode && off <= a.inode[inum].size
    requires SameFiles(b, c) && c.inode.Keys == b.inode.Keys
    requires forall i :: i in b.inode && i != inum ==> c.inode[i] == b.inode[i]
    requires var end := off + |src|;
      c.inode[inum] == b.inode[inum].(size := if |src| > 0 && end > a.inode[inum].size then end else a.inode[inum].size)
    ensures Content(c, inum) == Splice(Content(a, inum), off, src)
    ensures forall i :: i in a.inode && i != inum ==> Content(c, i) == Content(a, i)
  {
    hide FileBlock;
    forall i: nat, x: nat ensures Peek(c, i, x) == Peek(b, i, x) {
      assert FileBlock(c, i, x / BSIZE) == FileBlock(b, i, x / BSIZE);
    }
    hide Peek;
  }

  /** What a write does, between a and b. */
  ghost predicate WriteDone(l: Layout, a: Fs, o: Owner, b: Fs, o': Owner, inum: nat, off: nat, src: seq<Byte>, now: set<nat>) {
    && inum in a.inode && b.inode.Keys == a.inode.Keys && off <= |Content(a, inum)|
    && Content(b, inum) == Splice(Content(a, inum), off, src) && b.inode[inum].typ == a.inode[inum].typ
    && (forall i :: i in a.inode && i != inum ==> b.inode[i] == a.inode[i] && Content(b, i) == Content(a, i))
    && (Synced(l, a) ==> Synced(l, b))
    && Touched(l, a, b, inum, off / BSIZE, off / BSIZE + Span(off, |src|), now)
    && (off + |src| > a.inode[inum].size && |src| > 0 ==> InodeBlock(l, inum) in now)
    && Grown(a, b, inum) && Uses(l, a, o, b, o', inum, Missing(a, inum, off / BSIZE, off / BSIZE + Span(off, |src|)))
  }

  /** The loop from a to b, then the end of writei from b to c. */
  lemma FinishWrite(l: Layout, a: Fs, o: Owner, b: Fs, c: Fs, o': Owner, inum: nat, off: nat, src: seq<Byte>, was: set<nat>, now: set<nat>)
    requires Inv(l, a, o) && SameInodes(a, b, inum) && Written(a, b, inum, off, src) && inum in a.inode && off <= a.inode[inum].size
    requires Grown(a, b, inum) && Low(l, a.data, b.data) && SameFiles(b, c) && SamePtr(b, c) && was <= now
    requires Touched(l, a, b, inum, off / BSIZE, off / BSIZE + Span(off, |src|), was)
    requires Uses(l, a, o, b, o', inum, Missing(a, inum, off / BSIZE, off / BSIZE + Span(off, |src|)))
    requires off + |src| <= a.inode[inum].size ==> b.inode == a.inode
    requires var grows := |src| > 0 && off + |src| > b.inode[inum].size;
      && (if grows then c.inode == b.inode[inum := b.inode[inum].(size := off + |src|)] && InodeBlock(l, inum) in now
          else c.inode == b.inode && c.data == b.data)
      && forall i: nat :: InodeBlock(l, i) < l.bmapstart ==>
           DinodeAt(l, c.data, i) == if i == inum && grows then c.inode[inum] else DinodeAt(l, b.data, i)
    ensures WriteDone(l, a, o, c, o', inum, off, src, now)
  {
    hide Inv, Ptr, Content, Splice, Written, Touched, Uses, Missing, Grown, Low, DinodeAt, Synced, SameFiles, SamePtr, InodeBlock, Span;
    ShapeOf(l, a, o);
    FinishSynced(l, a, b, c, inum);
    ContentSize(a, inum);
    Spliced(a, b, c, inum, off, src);
    SizeTouched(l, a, b, c, inum, off / BSIZE, off / BSIZE + Span(off, |src|), was, now);
    SizeUses(l, a, o, b, c, o', inum, Missing(a, inum, off / BSIZE, off / BSIZE + Span(off, |src|)));
  }

  lemma FinishSynced(l: Layout, a: Fs, b: Fs, c: Fs, inum: nat)
    requires Low(l, a.data, b.data) && SameInodes(a, b, inum) && inum in a.inode
    requires forall i :: i in a.inode ==> InodeBlock(l, i) < l.bmapstart
    requires c.inode.Keys == b.inode.Keys && forall i :: i in b.inode && i != inum ==> c.inode[i] == b.inode[i]
    requires forall i: nat :: InodeBlock(l, i) < l.bmapstart && i != inum ==> DinodeAt(l, c.data, i) == DinodeAt(l, b.data, i)
    requires DinodeAt(l, c.data, inum) == c.inode[inum] || (c.inode[inum] == a.inode[inum] && DinodeAt(l, c.data, inum) == DinodeAt(l, b.data, inum))
    ensures Synced(l, a) ==> Synced(l, c)
  {
    hide DinodeAt, InodeBlock, Low;
    if Synced(l, a) { WriteSynced(l, a, b, c, inum); }
  }

  // ---- the log budget of one write ----

  /** File blocks, a bitmap block for each new one, the indirect block and its bitmap block, the inode block. */
  function Cost(off: nat, n: nat): nat {
    Span(off, n) + NewBlocks(off, n) + 3
  }

  /** filewrite's chunk size, ((MAXOPBLOCKS-1-1-2)/2)*512, keeps every write within MAXOPBLOCKS
      blocks at any alignment and with any number of bitmap blocks. */
  lemma ChunkFits(off: nat, n: nat)
    requires n <= 1536
    ensures Cost(off, n) <= 10
  {
  }

  // ---- what a write must allocate ----

  /** The blocks the bitmap has as free. */
  ghost function FreeBlocks(l: Layout, fs: Fs): set<nat> {
    set b: nat | b < l.size && !BitAt(l, fs.data, b)
  }

  /** The data blocks nobody owns. */
  ghost function Vacant(l: Layout, o: Owner): set<nat> {
    set b: nat | l.datastart <= b < l.size && b !in o
  }

  lemma FreeIsVacant(l: Layout, fs: Fs, o: Owner)
    requires Owned(l, fs, o, {})
    ensures FreeBlocks(l, fs) == Vacant(l, o)
  {
    hide BitAt;
  }

  /** An allocation moves one vacant block to its owner; otherwise nothing moves. */
  ghost predicate Took(l: Layout, o: Owner, o': Owner, some: bool, addr: nat) {
    if some then addr in Vacant(l, o) && o'.Keys == o.Keys + {addr} else o' == o
  }

  /** n blocks have been taken, and new slots hold blocks that were vacant. */
  ghost predicate Uses(l: Layout, a: Fs, o: Owner, b: Fs, o': Owner, inum: nat, n: nat) {
    && Vacant(l, o') <= Vacant(l, o) && |Vacant(l, o')| == |Vacant(l, o)| - n
    && forall k: nat :: Ptr(a, inum, k) == 0 && Ptr(b, inum, k) != 0 ==> Ptr(b, inum, k) in Vacant(l, o)
  }

  lemma UsedOne(l: Layout, a: Fs, o: Owner, b: Fs, o': Owner, inum: nat, some: bool, addr: nat)
    requires Took(l, o, o', some, addr)
    requires forall k: nat :: Ptr(b, inum, k) == Ptr(a, inum, k) || (some && Ptr(b, inum, k) == addr)
    ensures Uses(l, a, o, b, o', inum, if some then 1 else 0)
  {
    hide Ptr;
    if some {
      assert Vacant(l, o') == Vacant(l, o) - {addr};
    }
  }

  lemma UsedBoth(l: Layout, a: Fs, o: Owner, b: Fs, o': Owner, c: Fs, o'': Owner, inum: nat, m: nat, n: nat)
    requires Uses(l, a, o, b, o', inum, m) && Uses(l, b, o', c, o'', inum, n)
    requires forall k: nat :: Ptr(b, inum, k) != 0 ==> Ptr(c, inum, k) == Ptr(b, inum, k)
    ensures Uses(l, a, o, c, o'', inum, m + n)
  {
    hide Ptr, Vacant;
    forall k: nat | Ptr(a, inum, k) == 0 && Ptr(c, inum, k) != 0 ensures Ptr(c, inum, k) in Vacant(l, o) {
      assert Ptr(b, inum, k) != 0 ==> Ptr(c, inum, k) == Ptr(b, inum, k);
    }
  }

  lemma SameUses(l: Layout, a: Fs, o: Owner, b: Fs, c: Fs, o': Owner, inum: nat, n: nat)
    requires Uses(l, a, o, b, o', inum, n) && forall i: nat, k: nat :: Ptr(c, i, k) == Ptr(b, i, k)
    ensures Uses(l, a, o, c, o', inum, n)
  {
    hide Ptr;
  }

  /** Empty slots among blocks first up to next of a file. */
  ghost function EmptySlots(fs: Fs, inum: nat, first: nat, next: nat): nat
    decreases next
  {
    if next <= first then 0
    else EmptySlots(fs, inum, first, next - 1) + if Ptr(fs, inum, FileIdx(next - 1)) == 0 then 1 else 0
  }

  /** What writing those blocks must allocate: the empty slots, and the indirect block if one of
      them is an entry and there is none. */
  ghost function Missing(fs: Fs, inum: nat, first: nat, next: nat): nat {
    EmptySlots(fs, inum, first, next) + if first < next && next > NDIRECT && Ptr(fs, inum, NDIRECT) == 0 then 1 else 0
  }

  ghost function Need(fs: Fs, inum: nat, bn: nat): nat { Missing(fs, inum, bn, bn + 1) }

  lemma NeedIs(fs: Fs, inum: nat, bn: nat)
    ensures Need(fs, inum, bn) ==
      (if Ptr(fs, inum, FileIdx(bn)) == 0 then 1 else 0) + if bn >= NDIRECT && Ptr(fs, inum, NDIRECT) == 0 then 1 else 0
    ensures Ptr(fs, inum, FileIdx(bn)) != 0 ==> Need(fs, inum, bn) == 0
  {
    NoEntries(fs, inum, bn);
    hide Ptr;
    assert EmptySlots(fs, inum, bn, bn) == 0;
  }

  // ---- what a write must log ----

  /** The blocks a write of file block bn cannot avoid logging, from the slots before and after. */
  function Must(l: Layout, a: Fs, b: Fs, inum: nat, bn: nat): set<nat> {
    {Ptr(b, inum, FileIdx(bn))}
      + (if Ptr(a, inum, FileIdx(bn)) != 0 then {}
         else {BitmapBlock(l, Ptr(b, inum, FileIdx(bn)))} + if bn < NDIRECT then {} else {Ptr(b, inum, NDIRECT)})
      + (if bn < NDIRECT || Ptr(a, inum, NDIRECT) != 0 then {} else {BitmapBlock(l, Ptr(b, inum, NDIRECT))})
  }

  /** Only the slot of block bn, and the indirect block it needs, may have been filled. */
  ghost predicate OnlySlot(a: Fs, b: Fs, inum: nat, bn: nat) {
    forall k: nat :: k != FileIdx(bn) && (k != NDIRECT || bn < NDIRECT) ==> Ptr(b, inum, k) == Ptr(a, inum, k)
  }

  /** Without an indirect block there are no entries. */
  lemma NoEntries(fs: Fs, inum: nat, bn: nat)
    ensures bn >= NDIRECT && Ptr(fs, inum, NDIRECT) == 0 ==> Ptr(fs, inum, FileIdx(bn)) == 0
    ensures bn >= MAXFILE ==> Ptr(fs, inum, FileIdx(bn)) == 0
  {
  }

  lemma SameMust(l: Layout, a: Fs, b: Fs, c: Fs, inum: nat, bn: nat)
    requires forall i: nat, k: nat :: Ptr(c, i, k) == Ptr(b, i, k)
    ensures Must(l, a, c, inum, bn) == Must(l, a, b, inum, bn)
    ensures OnlySlot(a, b, inum, bn) ==> OnlySlot(a, c, inum, bn)
  {
    hide Ptr;
  }

  /** Blocks first up to next have been written, and what that must log is logged; later slots
      are as they were. */
  ghost predicate Touched(l: Layout, a: Fs, b: Fs, inum: nat, first: nat, next: nat, now: set<nat>) {
    && (forall bn: nat :: first <= bn < next ==> TouchedAt(l, a, b, inum, bn, now))
    && (forall bn: nat :: bn >= next ==> SameSlot(a, b, inum, bn))
    && IndirectLogged(l, a, b, inum, now)
    && (next <= first || next <= NDIRECT ==> Ptr(b, inum, NDIRECT) == Ptr(a, inum, NDIRECT))
  }

  ghost predicate TouchedAt(l: Layout, a: Fs, b: Fs, inum: nat, bn: nat, now: set<nat>) {
    Must(l, a, b, inum, bn) <= now && Ptr(b, inum, FileIdx(bn)) != 0 && (bn >= NDIRECT ==> Ptr(b, inum, NDIRECT) != 0)
  }

  ghost predicate SameSlot(a: Fs, b: Fs, inum: nat, bn: nat) {
    Ptr(b, inum, FileIdx(bn)) == Ptr(a, inum, FileIdx(bn))
  }

  ghost predicate IndirectLogged(l: Layout, a: Fs, b: Fs, inum: nat, now: set<nat>) {
    Ptr(b, inum, NDIRECT) == Ptr(a, inum, NDIRECT) || (Ptr(a, inum, NDIRECT) == 0 && BitmapBlock(l, Ptr(b, inum, NDIRECT)) in now)
  }

  /** Slot by slot, what is left to allocate is what has not been written yet. */
  lemma MissingStep(l: Layout, a: Fs, b: Fs, inum: nat, first: nat, bn: nat, now: set<nat>)
    requires Touched(l, a, b, inum, first, bn, now) && first <= bn
    ensures Missing(a, inum, first, bn + 1) == Missing(a, inum, first, bn) + Need(b, inum, bn)
  {
    NeedIs(b, inum, bn);
    hide Ptr, Need;
    assert SameSlot(a, b, inum, bn);
    if first < bn && bn > NDIRECT {
      assert TouchedAt(l, a, b, inum, bn - 1, now);
    }
  }

  lemma {:induction false} MissingMono(fs: Fs, inum: nat, first: nat, next: nat, last: nat)
    requires next <= last
    ensures Missing(fs, inum, first, next) <= Missing(fs, inum, first, last)
    decreases last
  {
    hide Ptr;
    if next < last {
      MissingMono(fs, inum, first, next, last - 1);
    }
  }

  lemma UseNone(l: Layout, a: Fs, o: Owner, inum: nat, off: nat)
    ensures Uses(l, a, o, a, o, inum, Missing(a, inum, off / BSIZE, off / BSIZE + Span(off, 0)))
  {
    hide Ptr;
  }

  lemma UsesEnough(l: Layout, a: Fs, o: Owner, b: Fs, o': Owner, inum: nat, off: nat, n: nat)
    requires Uses(l, a, o, b, o', inum, Missing(a, inum, off / BSIZE, off / BSIZE + Span(off, n)))
    ensures Missing(a, inum, off / BSIZE, off / BSIZE + Span(off, n)) <= |Vacant(l, o)|
  {
    hide Ptr, Missing;
  }

  lemma TooFew(l: Layout, a: Fs, o: Owner, b: Fs, o': Owner, inum: nat, first: nat, bn: nat)
    requires Uses(l, a, o, b, o', inum, Missing(a, inum, first, bn)) && Need(b, inum, bn) > |Vacant(l, o')|
    requires Missing(a, inum, first, bn + 1) == Missing(a, inum, first, bn) + Need(b, inum, bn)
    ensures Missing(a, inum, first, bn + 1) > |Vacant(l, o)|
  {
    hide Ptr, Missing, Need;
  }

  lemma GrownKeeps(a: Fs, b: Fs, inum: nat)
    requires Grown(a, b, inum)
    ensures forall k: nat :: Ptr(a, inum, k) != 0 ==> Ptr(b, inum, k) == Ptr(a, inum, k)
  {
    hide Ptr;
  }

  lemma SpanMono(off: nat, m: nat, n: nat)
    requires m <= n
    ensures Span(off, m) <= Span(off, n)
  {
  }

  lemma FreeVacant(l: Layout, fs: Fs, o: Owner)
    requires Inv(l, fs, o)
    ensures FreeBlocks(l, fs) == Vacant(l, o)
  {
    FreeIsVacant(l, fs, o);
  }

  /** A new size changes no slot. */
  lemma SizeUses(l: Layout, a: Fs, o: Owner, b: Fs, c: Fs, o': Owner, inum: nat, n: nat)
    requires Uses(l, a, o, b, o', inum, n) && Grown(a, b, inum) && SamePtr(b, c)
    ensures Uses(l, a, o, c, o', inum, n) && Grown(a, c, inum)
  {
    hide Ptr;
  }

  lemma SpanJoin(off: nat, i: nat, n: nat)
    requires n > 0
    ensures var mid, at, last := off / BSIZE + Span(off, i), (off + i) / BSIZE, (off + i) / BSIZE + Span(off + i, n);
      && last == off / BSIZE + Span(off, i + n) && mid <= last && at < last
      && (at == mid || at == mid - 1) && (i == 0 ==> at == mid == off / BSIZE) && off / BSIZE <= at
  {
  }

  /** From a to b, bytes were written at off up to off + n, for which just the missing blocks were taken. */
  ghost predicate Paid(l: Layout, a: Fs, o: Owner, b: Fs, o': Owner, inum: nat, off: nat, n: nat) {
    && Uses(l, a, o, b, o', inum, Missing(a, inum, off / BSIZE, off / BSIZE + Span(off, n)))
    && Reached(l, a, b, inum, off / BSIZE, off / BSIZE + Span(off, n))
  }

  ghost predicate Reached(l: Layout, a: Fs, b: Fs, inum: nat, first: nat, next: nat) {
    exists now: set<nat> :: Touched(l, a, b, inum, first, next, now)
  }

  lemma PaidNone(l: Layout, a: Fs, o: Owner, inum: nat, off: nat)
    ensures Paid(l, a, o, a, o, inum, off, 0)
  {
    hide Touched, Missing, Uses, Span;
    UseNone(l, a, o, inum, off);
    TouchNone(l, a, inum, off, {});
  }

  lemma PaidEnough(l: Layout, a: Fs, o: Owner, b: Fs, o': Owner, inum: nat, off: nat, n: nat)
    requires Paid(l, a, o, b, o', inum, off, n) && Inv(l, a, o)
    ensures Missing(a, inum, off / BSIZE, off / BSIZE + Span(off, n)) <= |FreeBlocks(l, a)|
  {
    hide Touched, Missing, Uses, Span, Inv, FreeBlocks, Vacant;
    FreeVacant(l, a, o);
    UsesEnough(l, a, o, b, o', inum, off, n);
  }

  lemma PaidShort(l: Layout, a: Fs, o: Owner, b: Fs, o': Owner, inum: nat, off: nat, i: nat, n: nat, all: nat)
    requires Paid(l, a, o, b, o', inum, off, i) && Inv(l, a, o) && Inv(l, b, o') && n > 0 && i + n <= all
    requires Missing(b, inum, (off + i) / BSIZE, (off + i) / BSIZE + Span(off + i, n)) > |FreeBlocks(l, b)|
    ensures Missing(a, inum, off / BSIZE, off / BSIZE + Span(off, all)) > |FreeBlocks(l, a)|
  {
    hide Touched, Missing, Uses, Span, Inv, FreeBlocks, Vacant;
    FreeVacant(l, a, o);
    FreeVacant(l, b, o');
    SpanJoin(off, i, n);
    var first, at := off / BSIZE, (off + i) / BSIZE;
    var now :| Touched(l, a, b, inum, first, first + Span(off, i), now);
    MissingJoin(l, a, b, inum, first, first + Span(off, i), at, at + Span(off + i, n), now);
    SpanMono(off, i + n, all);
    MissingMono(a, inum, first, first + Span(off, i + n), first + Span(off, all));
    Exceeds(l, a, o, b, o', inum, first, first + Span(off, i), first + Span(off, i + n), Missing(b, inum, at, at + Span(off + i, n)));
  }

  lemma PaidNext(l: Layout, a: Fs, o: Owner, b: Fs, o': Owner, c: Fs, o'': Owner, inum: nat, off: nat, i: nat, n: nat, now: set<nat>)
    requires Paid(l, a, o, b, o', inum, off, i) && Grown(b, c, inum) && n > 0
    requires Uses(l, b, o', c, o'', inum, Missing(b, inum, (off + i) / BSIZE, (off + i) / BSIZE + Span(off + i, n)))
    requires Touched(l, b, c, inum, (off + i) / BSIZE, (off + i) / BSIZE + Span(off + i, n), now)
    ensures Paid(l, a, o, c, o'', inum, off, i + n)
  {
    hide Touched, Missing, Uses, Span, Grown, Ptr;
    SpanJoin(off, i, n);
    var first, at := off / BSIZE, (off + i) / BSIZE;
    var was :| Touched(l, a, b, inum, first, first + Span(off, i), was);
    MissingJoin(l, a, b, inum, first, first + Span(off, i), at, at + Span(off + i, n), was);
    GrownKeeps(b, c, inum);
    UsedBoth(l, a, o, b, o', c, o'', inum, Missing(a, inum, first, first + Span(off, i)), Missing(b, inum, at, at + Span(off + i, n)));
    TouchJoin(l, a, b, c, inum, first, first + Span(off, i), at, at + Span(off + i, n), was, now);
  }

  lemma Exceeds(l: Layout, a: Fs, o: Owner, b: Fs, o': Owner, inum: nat, first: nat, mid: nat, last: nat, n: nat)
    requires Uses(l, a, o, b, o', inum, Missing(a, inum, first, mid)) && n > |Vacant(l, o')|
    requires Missing(a, inum, first, last) == Missing(a, inum, first, mid) + n
    ensures Missing(a, inum, first, last) > |Vacant(l, o)|
  {
    hide Ptr, Missing;
  }

  lemma {:induction false} SlotsJoin(l: Layout, a: Fs, b: Fs, inum: nat, first: nat, mid: nat, at: nat, last: nat, now: set<nat>)
    requires Touched(l, a, b, inum, first, mid, now) && first <= at && mid <= last && (at == mid || at == mid - 1) && first <= mid
    ensures EmptySlots(a, inum, first, last) == EmptySlots(a, inum, first, mid) + EmptySlots(b, inum, at, last)
    decreases last
  {
    hide Ptr;
    if last == mid {
      if at < mid {
        assert TouchedAt(l, a, b, inum, at, now);
        assert EmptySlots(b, inum, at, at) == 0;
      }
    } else {
      SlotsJoin(l, a, b, inum, first, mid, at, last - 1, now);
      assert SameSlot(a, b, inum, last - 1);
    }
  }

  /** What two writes in a row must allocate is what one write of both must. */
  lemma MissingJoin(l: Layout, a: Fs, b: Fs, inum: nat, first: nat, mid: nat, at: nat, last: nat, now: set<nat>)
    requires Touched(l, a, b, inum, first, mid, now) && first <= at && mid <= last && (at == mid || at == mid - 1) && first <= mid
    requires at < last
    ensures Missing(a, inum, first, last) == Missing(a, inum, first, mid) + Missing(b, inum, at, last)
  {
    SlotsJoin(l, a, b, inum, first, mid, at, last, now);
    hide Ptr, EmptySlots;
    if first < mid && mid > NDIRECT {
      assert TouchedAt(l, a, b, inum, mid - 1, now);
    }
  }

  lemma TouchJoin(l: Layout, a: Fs, b: Fs, c: Fs, inum: nat, first: nat, mid: nat, at: nat, last: nat, was: set<nat>, now: set<nat>)
    requires Touched(l, a, b, inum, first, mid, was) && Touched(l, b, c, inum, at, last, now) && Grown(b, c, inum)
    requires first <= at && first <= mid <= last && (at == mid || at == mid - 1) && at < last
    ensures Touched(l, a, c, inum, first, last, was + now)
  {
    hide Ptr;
    forall bn: nat | first <= bn < last ensures TouchedAt(l, a, c, inum, bn, was + now) {
      if bn < mid {
        assert TouchedAt(l, a, b, inum, bn, was);
        assert Must(l, a, c, inum, bn) == Must(l, a, b, inum, bn);
      } else {
        assert TouchedAt(l, b, c, inum, bn, now) && SameSlot(a, b, inum, bn);
      }
    }
    forall bn: nat | bn >= last ensures SameSlot(a, c, inum, bn) {
      assert SameSlot(a, b, inum, bn) && SameSlot(b, c, inum, bn);
    }
    assert IndirectLogged(l, a, c, inum, was + now);
  }

  lemma TouchNone(l: Layout, a: Fs, inum: nat, off: nat, now: set<nat>)
    ensures Touched(l, a, a, inum, off / BSIZE, off / BSIZE + Span(off, 0), now)
  {
    hide Ptr;
  }

  lemma SpanNext(off: nat, tot: nat, m: nat)
    requires m > 0 && (off + tot) % BSIZE + m <= BSIZE && (tot == 0 || (off + tot) % BSIZE == 0)
    ensures off / BSIZE + Span(off, tot) == (off + tot) / BSIZE && Span(off, tot + m) == Span(off, tot) + 1
  {
  }

  lemma TouchNext(l: Layout, a: Fs, b: Fs, c: Fs, inum: nat, first: nat, bn: nat, was: set<nat>, now: set<nat>)
    requires Touched(l, a, b, inum, first, bn, was) && first <= bn && was <= now && Grown(b, c, inum)
    requires OnlySlot(b, c, inum, bn) && Must(l, b, c, inum, bn) <= now
    requires Ptr(c, inum, FileIdx(bn)) != 0 && (bn >= NDIRECT ==> Ptr(c, inum, NDIRECT) != 0)
    ensures Touched(l, a, c, inum, first, bn + 1, now)
  {
    hide Ptr;
    forall k: nat | first <= k < bn ensures TouchedAt(l, a, c, inum, k, now) {
      assert TouchedAt(l, a, b, inum, k, was);
      assert Must(l, a, c, inum, k) == Must(l, a, b, inum, k);
    }
    assert SameSlot(a, b, inum, bn);
    forall k: nat | k >= bn + 1 ensures SameSlot(a, c, inum, k) {
      assert SameSlot(a, b, inum, k);
    }
  }

  lemma SizeTouched(l: Layout, a: Fs, b: Fs, c: Fs, inum: nat, first: nat, next: nat, was: set<nat>, now: set<nat>)
    requires Touched(l, a, b, inum, first, next, was) && was <= now
    requires SamePtr(b, c)
    ensures Touched(l, a, c, inum, first, next, now)
  {
    hide Ptr;
    forall bn: nat | first <= bn < next ensures TouchedAt(l, a, c, inum, bn, now) {
      assert TouchedAt(l, a, b, inum, bn, was);
      assert Must(l, a, c, inum, bn) == Must(l, a, b, inum, bn);
    }
    forall bn: nat | bn >= next ensures SameSlot(a, c, inum, bn) {
      assert SameSlot(a, b, inum, bn);
    }
    assert IndirectLogged(l, a, c, inum, now);
  }

  /** When the bound is reached: a full chunk that begins inside the last direct block of a file
      without an indirect block, and whose four new blocks come from four bitmap blocks, logs at
      least ten blocks. InodeTight has a disk where that happens; it needs more than 8192 data
      blocks, so a disk of FSSIZE blocks, which has one bitmap block, is not one. */
  lemma TenBlocks(l: Layout, a: Fs, b: Fs, o: Owner, inum: nat, off: nat, now: set<nat>)
    requires Owned(l, b, o, {}) && off / BSIZE == 11 && off % BSIZE != 0
    requires Touched(l, a, b, inum, 11, 11 + Span(off, 1536), now) && InodeBlock(l, inum) in now
    requires Ptr(a, inum, 11) != 0 && Ptr(a, inum, NDIRECT) == 0 && InodeBlock(l, inum) < l.bmapstart
    requires forall j: nat, k: nat :: 12 <= j < k <= 15 ==> BitmapBlock(l, Ptr(b, inum, j)) != BitmapBlock(l, Ptr(b, inum, k))
    ensures |now| >= 10
  {
    hide Ptr, Touched, Owned, Must, BitmapBlock, InodeBlock;
    assert Span(off, 1536) == 4;
    NoEntries(a, inum, 12);
    NoEntries(a, inum, 13);
    NoEntries(a, inum, 14);
    TouchedFour(l, a, b, inum, now);
    OwnedFive(l, b, o, inum);
    var w, ind, x, y, z := Ptr(b, inum, 11), Ptr(b, inum, 12), Ptr(b, inum, 13), Ptr(b, inum, 14), Ptr(b, inum, 15);
    var p, q, r, s := BitmapBlock(l, ind), BitmapBlock(l, x), BitmapBlock(l, y), BitmapBlock(l, z);
    Five(w, ind, x, y, z);
    Four(p, q, r, s);
    TenApart(l.bmapstart, l.datastart, {w, ind, x, y, z}, {p, q, r, s}, InodeBlock(l, inum), now);
  }

  lemma Four(a: nat, b: nat, c: nat, d: nat)
    requires a != b && a != c && a != d && b != c && b != d && c != d
    ensures |{a, b, c, d}| == 4
  {
  }

  lemma Five(a: nat, b: nat, c: nat, d: nat, e: nat)
    requires a != b && a != c && a != d && a != e && b != c && b != d && b != e && c != d && c != e && d != e
    ensures |{a, b, c, d, e}| == 5
  {
  }

  lemma TenApart(lo: nat, mid: nat, data: set<nat>, maps: set<nat>, i: nat, now: set<nat>)
    requires |data| == 5 && |maps| == 4 && data <= now && maps <= now && i in now && i < lo
    requires (forall b :: b in data ==> b >= mid) && forall b :: b in maps ==> lo <= b < mid
    ensures |now| >= 10
  {
    assert data !! maps && i !in data + maps;
    assert |data + maps| == 9 && |data + maps + {i}| == 10;
    Subset(data + maps + {i}, now);
  }

  lemma TouchedFour(l: Layout, a: Fs, b: Fs, inum: nat, now: set<nat>)
    requires Touched(l, a, b, inum, 11, 15, now) && Ptr(a, inum, 11) != 0 && Ptr(a, inum, NDIRECT) == 0
    requires Ptr(a, inum, 13) == 0 && Ptr(a, inum, 14) == 0 && Ptr(a, inum, 15) == 0
    ensures {Ptr(b, inum, 11), Ptr(b, inum, 12), Ptr(b, inum, 13), Ptr(b, inum, 14), Ptr(b, inum, 15)} <= now
    ensures forall k: nat :: 12 <= k <= 15 ==> BitmapBlock(l, Ptr(b, inum, k)) in now
    ensures forall k: nat :: 11 <= k <= 15 ==> Ptr(b, inum, k) != 0
  {
    hide Ptr;
    assert TouchedAt(l, a, b, inum, 11, now) && TouchedAt(l, a, b, inum, 12, now);
    assert TouchedAt(l, a, b, inum, 13, now) && TouchedAt(l, a, b, inum, 14, now);
  }

  /** Blocks in different slots are different, and lie beyond the bitmap. */
  lemma OwnedFive(l: Layout, b: Fs, o: Owner, inum: nat)
    requires Owned(l, b, o, {}) && forall k: nat :: 11 <= k <= 15 ==> Ptr(b, inum, k) != 0
    ensures forall k: nat :: 11 <= k <= 15 ==> l.datastart <= Ptr(b, inum, k) < l.size && l.bmapstart <= BitmapBlock(l, Ptr(b, inum, k)) < l.datastart
    ensures forall j: nat, k: nat :: 11 <= j < k <= 15 ==> Ptr(b, inum, j) != Ptr(b, inum, k)
  {
    hide Ptr, BitAt;
    forall k: nat | 11 <= k <= 15 ensures l.datastart <= Ptr(b, inum, k) < l.size && l.bmapstart <= BitmapBlock(l, Ptr(b, inum, k)) < l.datastart {
      BitmapIsMeta(l, Ptr(b, inum, k));
    }
  }

  lemma ContentSize(fs: Fs, inum: nat)
    requires inum in fs.inode
    ensures |Content(fs, inum)| == fs.inode[inum].size
  {
  }

  function Chunk(left: nat): nat { if left > 1536 then 1536 else left }

  lemma Subset(a: set<nat>, b: set<nat>)
    requires a <= b
    ensures |a| <= |b|
  {
    assert |b| == |a| + |b - a|;
  }

  /** Writing two pieces one after the other is writing them at once. */
  lemma SpliceJoin(c0: seq<Byte>, c: seq<Byte>, off: nat, src: seq<Byte>, i: nat, n: nat)
    requires i + n <= |src| && off + i <= |c|
    requires if i == 0 then c == c0 else off <= |c0| && c == Splice(c0, off, src[..i])
    ensures off <= |c0| && Splice(c, off + i, src[i..i+n]) == Splice(c0, off, src[..i+n])
  {
  }

  // ---- itrunc ----

  /** Other inodes keep their slots, and their file blocks their contents. */
  ghost predicate SameOthers(a: Fs, b: Fs, inum: nat) {
    && b.inode.Keys == a.inode.Keys
    && (forall i :: i in a.inode && i != inum ==> b.inode[i] == a.inode[i])
    && (forall i: nat, k: nat :: i != inum ==> Ptr(b, i, k) == Ptr(a, i, k))
    && (forall i: nat, k: nat :: i != inum && k != NDIRECT && Ptr(a, i, k) != 0 ==>
          BlockAt(b.data, Ptr(a, i, k)) == BlockAt(a.data, Ptr(a, i, k)))
  }

  lemma InOwnerOk(l: Layout, fs: Fs, o: Owner, inum: nat, k: nat)
    requires Shape(l, fs) && OwnerOk(l, fs, o) && Ptr(fs, inum, k) != 0
    ensures Ptr(fs, inum, k) < |fs.data| && Ptr(fs, inum, k) in o
  {
  }

  lemma SlotsTrans(a: Fs, b: Fs, c: Fs)
    requires SameSlots(a, b) && SameSlots(b, c)
    ensures SameSlots(a, c)
  {
    hide Ptr, BlockAt;
  }

  /** A slot in use accounts for one more block. */
  lemma EntryHolding(l: Layout, fs: Fs, o: Owner, inum: nat, k: nat)
    requires OwnerOk(l, fs, o) && NDIRECT < k < NSLOTS
    ensures var b := Ptr(fs, inum, k);
      if b == 0 then Holding(o, inum, NDIRECT + 1, k + 1) == Holding(o, inum, NDIRECT + 1, k)
      else l.datastart <= b < l.size && b in o && b !in Holding(o, inum, NDIRECT + 1, k)
           && Holding(o, inum, NDIRECT + 1, k + 1) == Holding(o, inum, NDIRECT + 1, k) + {b}
  {
    hide Ptr;
    var d := Holding(o, inum, NDIRECT + 1, k + 1) - Holding(o, inum, NDIRECT + 1, k);
    forall b | b in d ensures b == Ptr(fs, inum, k) {
      assert o[b].idx == k;
    }
  }

  lemma SlotHolding(l: Layout, fs: Fs, o: Owner, inum: nat, k: nat)
    requires OwnerOk(l, fs, o) && k < NSLOTS
    ensures var b := Ptr(fs, inum, k);
      if b == 0 then Holding(o, inum, k, k + 1) == {}
      else l.datastart <= b < l.size && b in o && Holding(o, inum, k, k + 1) == {b}
  {
    hide Ptr;
    var hs := Holding(o, inum, k, k + 1);
    forall b | b in hs ensures b == Ptr(fs, inum, k) {
      assert o[b] == Slot(inum, k);
    }
  }

  lemma NoIndirect(l: Layout, fs: Fs, o: Owner, inum: nat)
    requires OwnerOk(l, fs, o) && Ptr(fs, inum, NDIRECT) == 0
    ensures Holding(o, inum, NDIRECT, NSLOTS) == {}
  {
    forall b | b in o && o[b].inum == inum && NDIRECT <= o[b].idx ensures false {
      EntryNeedsIndirect(fs, inum, o[b].idx);
    }
  }

  lemma AddrPtr(fs: Fs, inum: nat)
    requires inum in fs.inode && |fs.inode[inum].addrs| == NDIRECT + 1
    ensures forall k: nat :: k <= NDIRECT ==> Ptr(fs, inum, k) == fs.inode[inum].addrs[k]
  {
  }

  lemma IndirectHolding(l: Layout, fs: Fs, o: Owner, inum: nat)
    requires OwnerOk(l, fs, o) && Ptr(fs, inum, NDIRECT) != 0
    ensures var ind, some := Ptr(fs, inum, NDIRECT), Holding(o, inum, NDIRECT + 1, NSLOTS);
      l.datastart <= ind < l.size && ind in o && ind !in some && Holding(o, inum, NDIRECT, NSLOTS) == some + {ind}
  {
    hide Ptr;
    var d := Holding(o, inum, NDIRECT, NSLOTS) - Holding(o, inum, NDIRECT + 1, NSLOTS);
    forall b | b in d ensures b == Ptr(fs, inum, NDIRECT) {
      assert o[b].idx == NDIRECT;
    }
  }

  lemma FreedBit(l: Layout, fs: Fs, used: set<nat>, b: nat)
    requires BitsAre(l, fs, used) && b in used && b < l.size
    ensures BitAt(l, fs.data, b)
  {
  }

  lemma BitsSame(l: Layout, a: Fs, b: Fs, used: set<nat>)
    requires BitsAre(l, a, used) && b.data == a.data
    ensures BitsAre(l, b, used)
  {
  }

  lemma OthersRefl(a: Fs, inum: nat)
    ensures SameOthers(a, a, inum)
  {
  }

  lemma OthersFrom(a: Fs, b: Fs, c: Fs, inum: nat, lo: nat, hi: nat)
    requires SameSlots(a, b) && b.inode == a.inode && c.data == b.data && inum in b.inode && inum in c.inode
    requires c.inode == b.inode[inum := c.inode[inum]]
    requires forall i: nat, k: nat :: Ptr(c, i, k) == if i == inum && lo <= k < hi then 0 else Ptr(b, i, k)
    ensures SameOthers(a, c, inum)
  {
    hide Ptr, BlockAt;
  }

  function Zeros(n: nat): seq<nat> { seq(n, _ => 0) }

  lemma StartTrunc(l: Layout, fs: Fs, o: Owner, inum: nat)
    requires Inv(l, fs, o)
    ensures Shape(l, fs) && OwnerOk(l, fs, o) && BitsAre(l, fs, o.Keys - {})
    ensures inum in fs.inode ==> |fs.inode[inum].addrs| == NDIRECT + 1
  {
    hide BitAt, Ptr;
    assert o.Keys - {} == o.Keys;
  }

  lemma HoldingNone(o: Owner, inum: nat)
    ensures o == o - Holding(o, inum, 0, 0)
  {
    assert Holding(o, inum, 0, 0) == {};
  }

  lemma TruncStep(a: Fs, b: Fs, c: Fs, o: Owner, inum: nat, lo: nat, hi: nat)
    requires SameOthers(a, b, inum) && SameOthers(b, c, inum) && lo <= hi
    ensures SameOthers(a, c, inum) && c.inode.Keys == a.inode.Keys
    ensures var p := o - Holding(o, inum, 0, lo);
      p - Holding(p, inum, lo, hi) == o - Holding(o, inum, 0, hi)
  {
    hide Ptr, BlockAt;
  }

  lemma EndTrunc(l: Layout, a: Fs, b: Fs, c: Fs, o: Owner, p: Owner, inum: nat)
    requires Inv(l, a, o) && SameOthers(a, b, inum) && inum in b.inode
    requires p == o - Holding(o, inum, 0, NSLOTS)
    requires Shape(l, b) && OwnerOk(l, b, p) && BitsAre(l, b, p.Keys - {})
    requires c == b.(inode := b.inode[inum := b.inode[inum].(size := 0)])
    ensures Inv(l, c, p)
    ensures forall x: nat :: x < l.size ==>
      (BitAt(l, c.data, x) <==> BitAt(l, a.data, x) && x !in Holding(o, inum, 0, NSLOTS))
    ensures forall i :: i in a.inode && i != inum ==> c.inode[i] == a.inode[i] && Content(c, i) == Content(a, i)
  {
    hide BitAt, Word, Content;
    SizePtr(b, inum, 0);
    assert p.Keys - {} == p.Keys;
    TruncOwned(l, b, c, p);
    TruncMapped(a, b, c, inum);
    forall x: nat | x < l.size
      ensures BitAt(l, c.data, x) <==> BitAt(l, a.data, x) && x !in Holding(o, inum, 0, NSLOTS)
    {
      hide Ptr;
    }
    forall i | i in a.inode && i != inum ensures Content(c, i) == Content(a, i) {
      OtherContent(a, b, c, inum, i);
    }
  }

  lemma SizePtr(fs: Fs, inum: nat, size: nat)
    requires inum in fs.inode
    ensures var t := fs.(inode := fs.inode[inum := fs.inode[inum].(size := size)]);
      forall i: nat, k: nat :: Ptr(t, i, k) == Ptr(fs, i, k)
  {
    hide Word;
  }

  lemma TruncOwned(l: Layout, b: Fs, c: Fs, p: Owner)
    requires Shape(l, b) && OwnerOk(l, b, p) && BitsAre(l, b, p.Keys) && Shape(l, c) && c.data == b.data
    requires forall i: nat, k: nat :: Ptr(c, i, k) == Ptr(b, i, k)
    ensures Owned(l, c, p, {})
  {
    hide Ptr, BitAt;
  }

  lemma TruncMapped(a: Fs, b: Fs, c: Fs, inum: nat)
    requires Mapped(a) && SameOthers(a, b, inum) && inum in b.inode
    requires c.inode == b.inode[inum := b.inode[inum].(size := 0)] && forall i: nat, k: nat :: Ptr(c, i, k) == Ptr(b, i, k)
    ensures Mapped(c)
  {
    hide Ptr, BlockAt;
    forall i: nat, bn: nat | InUse(c, i, bn) ensures bn < MAXFILE && Ptr(c, i, FileIdx(bn)) != 0 {
      assert InUse(a, i, bn);
    }
  }

  lemma OtherContent(a: Fs, b: Fs, c: Fs, inum: nat, i: nat)
    requires SameOthers(a, b, inum) && i in a.inode && i != inum && i in c.inode
    requires c.data == b.data && c.inode[i] == b.inode[i] && forall k: nat :: Ptr(c, i, k) == Ptr(b, i, k)
    ensures Content(c, i) == Content(a, i)
  {
    hide Ptr, BlockAt, ZeroBlock;
    forall bn: nat ensures FileBlock(c, i, bn) == FileBlock(a, i, bn) {
      assert Ptr(b, i, FileIdx(bn)) == Ptr(a, i, FileIdx(bn));
    }
  }
}
