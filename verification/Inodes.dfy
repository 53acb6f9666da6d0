/** Inode block trees of fs.c: the block bitmap, the slots that point at blocks, and the
    flat files they stand for. */
module Inodes {
  import opened Blocks
  import opened Dinodes

  const NINDIRECT: nat := 128
  const MAXFILE: nat := 140
  const NSLOTS: nat := 141        // NDIRECT direct slots, the indirect block, its entries
  const T_DEV: int := 3

  /** sb.size, sb.inodestart, sb.bmapstart and the first data block. */
  datatype Layout = Layout(size: nat, inodestart: nat, bmapstart: nat, datastart: nat)

  /** The blocks as the log and the buffer cache present them, and the inodes. */
  datatype Fs = Fs(data: seq<Block>, inode: map<nat, Inode>)

  /** A place that can hold a block number: idx 0..11 direct, 12 the indirect block, 13.. its entries. */
  datatype Slot = Slot(inum: nat, idx: nat)

  predicate LayoutOk(l: Layout) {
    0 < l.inodestart <= l.bmapstart && l.bmapstart + (l.size + BPB - 1) / BPB <= l.datastart <= l.size <= TWO32
  }

  function BlockAt(data: seq<Block>, b: nat): Block {
    if b < |data| then data[b] else ZeroBlock()
  }

  predicate BitAt(l: Layout, data: seq<Block>, b: nat) {
    Bit(BlockAt(data, l.bmapstart + b / BPB), b % BPB)
  }

  /** The block number in a slot, 0 if there is none. */
  function Ptr(fs: Fs, inum: nat, idx: nat): nat {
    if inum !in fs.inode || |fs.inode[inum].addrs| != NDIRECT + 1 || idx >= NSLOTS then 0
    else if idx <= NDIRECT then fs.inode[inum].addrs[idx]
    else if fs.inode[inum].addrs[NDIRECT] == 0 then 0
    else Word(BlockAt(fs.data, fs.inode[inum].addrs[NDIRECT]), idx - NDIRECT - 1)
  }

  /** The slot of the bn-th block of a file. */
  function FileIdx(bn: nat): nat {
    if bn < NDIRECT then bn else bn + 1
  }

  /** What the bn-th block of a file holds; a block not mapped reads as zeros. */
  function FileBlock(fs: Fs, inum: nat, bn: nat): Block {
    if bn >= MAXFILE || Ptr(fs, inum, FileIdx(bn)) == 0 then ZeroBlock()
    else BlockAt(fs.data, Ptr(fs, inum, FileIdx(bn)))
  }

  function Peek(fs: Fs, inum: nat, i: nat): Byte {
    FileBlock(fs, inum, i / BSIZE).bytes[i % BSIZE]
  }

  /** The file as a flat array of bytes. */
  function Content(fs: Fs, inum: nat): seq<Byte>
    requires inum in fs.inode
  {
    seq(fs.inode[inum].size, i requires 0 <= i => Peek(fs, inum, i))
  }

  // ---- invariant: every data block in use belongs to exactly one slot ----

  type Owner = map<nat, Slot>

  /** IBLOCK: the block that holds an inode. */
  function InodeBlock(l: Layout, inum: nat): nat { inum / IPB + l.inodestart }

  ghost predicate Shape(l: Layout, fs: Fs) {
    && LayoutOk(l) && |fs.data| == l.size
    && forall inum :: inum in fs.inode ==> |fs.inode[inum].addrs| == NDIRECT + 1 && InodeBlock(l, inum) < l.bmapstart
  }

  ghost predicate OwnerOk(l: Layout, fs: Fs, o: Owner) {
    && (forall b :: b in o ==> l.datastart <= b < l.size && o[b].idx < NSLOTS && Ptr(fs, o[b].inum, o[b].idx) == b && b != 0)
    && (forall i: nat, k: nat :: Ptr(fs, i, k) != 0 ==> Ptr(fs, i, k) in o && o[Ptr(fs, i, k)] == Slot(i, k))
  }

  /** A bit is set exactly for metadata, owned blocks, and blocks just allocated. */
  ghost predicate BitsOk(l: Layout, fs: Fs, o: Owner, spare: set<nat>) {
    && (forall b: nat :: b < l.size ==> (BitAt(l, fs.data, b) <==> b < l.datastart || b in o || b in spare))
    && (forall b :: b in spare ==> l.datastart <= b < l.size && b !in o && b != 0)
  }

  ghost predicate Owned(l: Layout, fs: Fs, o: Owner, spare: set<nat>) {
    Shape(l, fs) && OwnerOk(l, fs, o) && BitsOk(l, fs, o, spare)
  }

  /** Every block below a file's size is mapped. */
  ghost predicate Mapped(fs: Fs) {
    forall inum: nat, bn: nat :: InUse(fs, inum, bn) ==> bn < MAXFILE && Ptr(fs, inum, FileIdx(bn)) != 0
  }

  predicate InUse(fs: Fs, inum: nat, bn: nat) {
    inum in fs.inode && bn * BSIZE < fs.inode[inum].size
  }

  ghost predicate Inv(l: Layout, fs: Fs, o: Owner) {
    Owned(l, fs, o, {}) && Mapped(fs)
  }

  /** No slot and no file byte changes. */
  ghost predicate SameFiles(a: Fs, b: Fs) {
    forall i: nat, bn: nat :: FileBlock(b, i, bn) == FileBlock(a, i, bn)
  }

  // ---- what a change of one block does ----

  /** The block is not the indirect block of any inode. */
  ghost predicate NotIndirect(fs: Fs, b: nat) {
    forall i: nat :: Ptr(fs, i, NDIRECT) != b
  }

  lemma PtrFrame(fs: Fs, b: nat, v: Block)
    requires b < |fs.data| && b != 0 && NotIndirect(fs, b)
    ensures var t := fs.(data := fs.data[b := v]); forall i: nat, k: nat :: Ptr(t, i, k) == Ptr(fs, i, k)
  {
    hide Word;
    var t := fs.(data := fs.data[b := v]);
    forall i: nat, k: nat ensures Ptr(t, i, k) == Ptr(fs, i, k) {
      assert Ptr(fs, i, NDIRECT) != b;
    }
  }

  lemma OwnedNotIndirect(l: Layout, fs: Fs, o: Owner, b: nat)
    requires OwnerOk(l, fs, o) && b != 0 && (b in o ==> o[b].idx != NDIRECT)
    ensures NotIndirect(fs, b)
  {
  }

  // ---- bitmap ----

  function BitmapBlock(l: Layout, b: nat): nat { l.bmapstart + b / BPB }

  lemma BitmapIsMeta(l: Layout, b: nat)
    requires LayoutOk(l) && b < l.size
    ensures 0 < BitmapBlock(l, b) < l.datastart
  {
  }

  lemma SameBit(b: nat, c: nat)
    requires b / BPB == c / BPB && b % BPB == c % BPB
    ensures b == c
  {
  }

  lemma SetBitAt(l: Layout, data: seq<Block>, b: nat)
    requires LayoutOk(l) && |data| == l.size && b < l.size && !BitAt(l, data, b)
    ensures var x := BitmapBlock(l, b);
      forall c: nat :: BitAt(l, data[x := SetBit(data[x], b % BPB)], c) <==> c == b || BitAt(l, data, c)
  {
    hide SetBit, Bit;
    var x := BitmapBlock(l, b);
    BitmapIsMeta(l, b);
    var d := data[x := SetBit(data[x], b % BPB)];
    forall c: nat ensures BitAt(l, d, c) <==> c == b || BitAt(l, data, c) {
      if c / BPB == b / BPB && c % BPB == b % BPB { SameBit(b, c); }
    }
  }

  lemma ClearBitAt(l: Layout, data: seq<Block>, b: nat)
    requires LayoutOk(l) && |data| == l.size && b < l.size && BitAt(l, data, b)
    ensures var x := BitmapBlock(l, b);
      forall c: nat :: BitAt(l, data[x := ClearBit(data[x], b % BPB)], c) <==> c != b && BitAt(l, data, c)
  {
    hide ClearBit, Bit;
    var x := BitmapBlock(l, b);
    BitmapIsMeta(l, b);
    var d := data[x := ClearBit(data[x], b % BPB)];
    forall c: nat ensures BitAt(l, d, c) <==> c != b && BitAt(l, data, c) {
      if c / BPB == b / BPB && c % BPB == b % BPB { SameBit(b, c); }
    }
  }

  /** A block outside the bitmap does not change any bit. */
  lemma BitsFrame(l: Layout, data: seq<Block>, b: nat, v: Block)
    requires LayoutOk(l) && |data| == l.size && l.datastart <= b < l.size
    ensures forall c: nat :: c < l.size ==> (BitAt(l, data[b := v], c) <==> BitAt(l, data, c))
  {
    forall c: nat | c < l.size ensures BitAt(l, data[b := v], c) <==> BitAt(l, data, c) {
      BitmapIsMeta(l, c);
    }
  }

  // ---- the steps of allocation ----

  /** Equal slots, and equal blocks wherever a slot points. */
  ghost predicate SameSlots(a: Fs, b: Fs) {
    && (forall i: nat, k: nat :: Ptr(b, i, k) == Ptr(a, i, k))
    && (forall i: nat, k: nat :: k != NDIRECT && Ptr(a, i, k) != 0 ==>
          BlockAt(b.data, Ptr(a, i, k)) == BlockAt(a.data, Ptr(a, i, k)))
  }

  lemma SlotsFiles(a: Fs, b: Fs)
    requires SameSlots(a, b)
    ensures SameFiles(a, b)
  {
    hide Ptr;
    forall i: nat, bn: nat ensures FileBlock(b, i, bn) == FileBlock(a, i, bn) {
      assert Ptr(b, i, FileIdx(bn)) == Ptr(a, i, FileIdx(bn));
    }
  }

  /** Changing a block no slot points at. */
  lemma UnownedWrite(l: Layout, fs: Fs, o: Owner, b: nat, v: Block)
    requires Shape(l, fs) && OwnerOk(l, fs, o) && 0 < b < l.size && b !in o
    ensures var t := fs.(data := fs.data[b := v]); Shape(l, t) && OwnerOk(l, t, o) && SameSlots(fs, t)
  {
    OwnedNotIndirect(l, fs, o, b);
    PtrFrame(fs, b, v);
  }

  function Allocated(l: Layout, fs: Fs, b: nat): Fs
    requires LayoutOk(l) && |fs.data| == l.size && b < l.size && !BitAt(l, fs.data, b)
  {
    var x := BitmapBlock(l, b);
    fs.(data := fs.data[x := SetBit(fs.data[x], b % BPB)][b := ZeroBlock()])
  }

  /** balloc: a free block becomes spare, zeroed, and no file notices. */
  lemma AllocKeeps(l: Layout, fs: Fs, o: Owner, spare: set<nat>, b: nat)
    requires Owned(l, fs, o, spare) && b < l.size && !BitAt(l, fs.data, b)
    ensures b !in spare && b !in o && l.datastart <= b && b != 0
    ensures var t := Allocated(l, fs, b);
      Owned(l, t, o, spare + {b}) && SameSlots(fs, t) && BlockAt(t.data, b) == ZeroBlock()
      && forall c :: c in spare ==> BlockAt(t.data, c) == BlockAt(fs.data, c)
  {
    hide Bit, SetBit, Ptr, ZeroBlock;
    var x := BitmapBlock(l, b);
    BitmapIsMeta(l, b);
    SetBitAt(l, fs.data, b);
    var v := SetBit(fs.data[x], b % BPB);
    var m := fs.(data := fs.data[x := v]);
    UnownedWrite(l, fs, o, x, v);
    BitsFrame(l, m.data, b, ZeroBlock());
    UnownedWrite(l, m, o, b, ZeroBlock());
    var t := Allocated(l, fs, b);
    assert t == m.(data := m.data[b := ZeroBlock()]);
    AllocBits(l, fs, m, t, o, spare, b);
    hide OwnerOk, BitAt;
  }

  lemma AllocBits(l: Layout, fs: Fs, m: Fs, t: Fs, o: Owner, spare: set<nat>, b: nat)
    requires BitsOk(l, fs, o, spare) && b < l.size && !BitAt(l, fs.data, b) && b != 0
    requires forall c: nat :: c < l.size ==> (BitAt(l, m.data, c) <==> BitAt(l, fs.data, c) || c == b)
    requires forall c: nat :: c < l.size ==> (BitAt(l, t.data, c) <==> BitAt(l, m.data, c))
    ensures BitsOk(l, t, o, spare + {b})
  {
    hide BitAt;
  }

  /** b differs from a only in that the empty slot (inum, idx) now holds y. */
  ghost predicate SlotFilled(a: Fs, b: Fs, inum: nat, idx: nat, y: nat) {
    && Ptr(a, inum, idx) == 0
    && forall i: nat, k: nat :: Ptr(b, i, k) == if i == inum && k == idx then y else Ptr(a, i, k)
  }

  lemma FilledOwner(l: Layout, a: Fs, b: Fs, o: Owner, inum: nat, idx: nat, y: nat)
    requires OwnerOk(l, a, o) && SlotFilled(a, b, inum, idx, y) && idx < NSLOTS
    requires l.datastart <= y < l.size && y !in o && y != 0
    ensures OwnerOk(l, b, o[y := Slot(inum, idx)])
  {
    hide Ptr;
  }

  lemma FilledBits(l: Layout, fs: Fs, t: Fs, o: Owner, spare: set<nat>, y: nat, s: Slot)
    requires BitsOk(l, fs, o, spare) && y in spare
    requires forall c: nat :: c < l.size ==> (BitAt(l, t.data, c) <==> BitAt(l, fs.data, c))
    ensures BitsOk(l, t, o[y := s], spare - {y})
  {
    hide BitAt;
  }

  function WithAddr(fs: Fs, inum: nat, idx: nat, y: nat): Fs
    requires inum in fs.inode && idx < |fs.inode[inum].addrs|
  {
    fs.(inode := fs.inode[inum := fs.inode[inum].(addrs := fs.inode[inum].addrs[idx := y])])
  }

  /** ip->addrs[idx] = y for a block fresh from balloc. */
  lemma AddrKeeps(l: Layout, fs: Fs, o: Owner, spare: set<nat>, inum: nat, idx: nat, y: nat)
    requires Owned(l, fs, o, spare) && inum in fs.inode && idx <= NDIRECT && Ptr(fs, inum, idx) == 0
    requires y in spare && BlockAt(fs.data, y) == ZeroBlock()
    ensures var t := WithAddr(fs, inum, idx, y);
      Owned(l, t, o[y := Slot(inum, idx)], spare - {y}) && SameFiles(fs, t) && SlotFilled(fs, t, inum, idx, y)
  {
    hide Bit, Word, ZeroBlock;
    var t := WithAddr(fs, inum, idx, y);
    forall i: nat, k: nat ensures Ptr(t, i, k) == if i == inum && k == idx then y else Ptr(fs, i, k) {
      if i == inum && idx == NDIRECT && NDIRECT < k < NSLOTS { ZeroWords(k - NDIRECT - 1); }
    }
    FilledOwner(l, fs, t, o, inum, idx, y);
    FilledBits(l, fs, t, o, spare, y, Slot(inum, idx));
    FilledFiles(l, fs, t, inum, idx, y);
  }

  lemma FilledFiles(l: Layout, a: Fs, b: Fs, inum: nat, idx: nat, y: nat)
    requires SlotFilled(a, b, inum, idx, y) && y != 0 && BlockAt(b.data, y) == ZeroBlock()
    requires forall i: nat, k: nat :: k != NDIRECT && Ptr(a, i, k) != 0 ==>
               BlockAt(b.data, Ptr(a, i, k)) == BlockAt(a.data, Ptr(a, i, k))
    ensures SameFiles(a, b)
  {
    hide Ptr, ZeroBlock, BlockAt;
    forall i: nat, bn: nat ensures FileBlock(b, i, bn) == FileBlock(a, i, bn) {
      assert FileIdx(bn) != NDIRECT;
      assert Ptr(b, i, FileIdx(bn)) == if i == inum && FileIdx(bn) == idx then y else Ptr(a, i, FileIdx(bn));
    }
  }

  /** a[j] = y in the indirect block. */
  function WithEntry(fs: Fs, ind: nat, j: nat, y: nat): Fs
    requires ind < |fs.data| && j < NINDIRECT && y < TWO32
  {
    fs.(data := fs.data[ind := SetWord(fs.data[ind], j, y)])
  }

  lemma EntryPtr(l: Layout, fs: Fs, o: Owner, inum: nat, j: nat, y: nat)
    requires Shape(l, fs) && OwnerOk(l, fs, o) && inum in fs.inode && j < NINDIRECT && y < TWO32
    requires Ptr(fs, inum, NDIRECT) != 0 && Ptr(fs, inum, NDIRECT + 1 + j) == 0
    ensures Ptr(fs, inum, NDIRECT) < |fs.data|
    ensures SlotFilled(fs, WithEntry(fs, Ptr(fs, inum, NDIRECT), j, y), inum, NDIRECT + 1 + j, y)
  {
    hide Word, SetWord;
    var ind := Ptr(fs, inum, NDIRECT);
    assert ind in o && o[ind] == Slot(inum, NDIRECT);
    var t := WithEntry(fs, ind, j, y);
    forall i: nat, k: nat ensures Ptr(t, i, k) == if i == inum && k == NDIRECT + 1 + j then y else Ptr(fs, i, k) {
      if i != inum && Ptr(fs, i, NDIRECT) != 0 {
        assert o[Ptr(fs, i, NDIRECT)] == Slot(i, NDIRECT);
      }
    }
  }

  lemma EntryKeeps(l: Layout, fs: Fs, o: Owner, spare: set<nat>, inum: nat, j: nat, y: nat)
    requires Owned(l, fs, o, spare) && inum in fs.inode && j < NINDIRECT
    requires Ptr(fs, inum, NDIRECT) != 0 && Ptr(fs, inum, NDIRECT + 1 + j) == 0
    requires y in spare && BlockAt(fs.data, y) == ZeroBlock()
    ensures Ptr(fs, inum, NDIRECT) < |fs.data|
    ensures var t := WithEntry(fs, Ptr(fs, inum, NDIRECT), j, y); var k := NDIRECT + 1 + j;
      Owned(l, t, o[y := Slot(inum, k)], spare - {y}) && SameFiles(fs, t) && SlotFilled(fs, t, inum, k, y)
  {
    hide Bit, Word, SetWord, ZeroBlock, Ptr;
    EntryPtr(l, fs, o, inum, j, y);
    var ind, k := Ptr(fs, inum, NDIRECT), NDIRECT + 1 + j;
    assert ind in o && o[ind] == Slot(inum, NDIRECT);
    var t := WithEntry(fs, ind, j, y);
    BitsFrame(l, fs.data, ind, SetWord(fs.data[ind], j, y));
    FilledOwner(l, fs, t, o, inum, k, y);
    FilledBits(l, fs, t, o, spare, y, Slot(inum, k));
    forall i: nat, m: nat | m != NDIRECT && Ptr(fs, i, m) != 0
      ensures BlockAt(t.data, Ptr(fs, i, m)) == BlockAt(fs.data, Ptr(fs, i, m))
    {
      assert o[Ptr(fs, i, m)] == Slot(i, m);
    }
    FilledFiles(l, fs, t, inum, k, y);
  }

  /** Overwriting a mapped file block changes that block of that file and nothing else. */
  lemma DataKeeps(l: Layout, fs: Fs, o: Owner, inum: nat, bn: nat, v: Block)
    requires Owned(l, fs, o, {}) && bn < MAXFILE && Ptr(fs, inum, FileIdx(bn)) != 0
    ensures Ptr(fs, inum, FileIdx(bn)) < |fs.data|
    ensures var t := fs.(data := fs.data[Ptr(fs, inum, FileIdx(bn)) := v]);
      && Owned(l, t, o, {}) && (forall i: nat, k: nat :: Ptr(t, i, k) == Ptr(fs, i, k))
      && forall i: nat, m: nat :: FileBlock(t, i, m) == if i == inum && m == bn then v else FileBlock(fs, i, m)
  {
    hide Bit, Ptr;
    var a := Ptr(fs, inum, FileIdx(bn));
    assert a in o && o[a] == Slot(inum, FileIdx(bn));
    var t := fs.(data := fs.data[a := v]);
    OwnedNotIndirect(l, fs, o, a);
    PtrFrame(fs, a, v);
    BitsFrame(l, fs.data, a, v);
    assert OwnerOk(l, t, o) by { hide BitsOk; }
    forall c: nat | c < l.size ensures BitAt(l, t.data, c) <==> c < l.datastart || c in o {
      assert BitAt(l, t.data, c) <==> BitAt(l, fs.data, c);
    }
    forall i: nat, m: nat ensures FileBlock(t, i, m) == if i == inum && m == bn then v else FileBlock(fs, i, m) {
      if m < MAXFILE && Ptr(fs, i, FileIdx(m)) != 0 { assert o[Ptr(fs, i, FileIdx(m))] == Slot(i, FileIdx(m)); }
    }
  }

  // ---- freeing ----

  /** Beside the metadata, exactly the blocks of `used` are marked in use. */
  ghost predicate BitsAre(l: Layout, fs: Fs, used: set<nat>) {
    forall b: nat :: b < l.size ==> (BitAt(l, fs.data, b) <==> b < l.datastart || b in used)
  }

  function Freed(l: Layout, fs: Fs, b: nat): Fs
    requires LayoutOk(l) && |fs.data| == l.size && b < l.size && BitAt(l, fs.data, b)
  {
    fs.(data := fs.data[BitmapBlock(l, b) := ClearBit(fs.data[BitmapBlock(l, b)], b % BPB)])
  }

  /** bfree clears one bit and touches no slot and no file block. */
  lemma FreedKeeps(l: Layout, fs: Fs, o: Owner, used: set<nat>, b: nat)
    requires Shape(l, fs) && OwnerOk(l, fs, o) && BitsAre(l, fs, used) && l.datastart <= b < l.size && b in used
    ensures var t := Freed(l, fs, b);
      Shape(l, t) && OwnerOk(l, t, o) && BitsAre(l, t, used - {b}) && SameSlots(fs, t)
  {
    hide Bit, ClearBit, Ptr;
    BitmapIsMeta(l, b);
    ClearBitAt(l, fs.data, b);
    var x := BitmapBlock(l, b);
    UnownedWrite(l, fs, o, x, ClearBit(fs.data[x], b % BPB));
    var t := Freed(l, fs, b);
    forall c: nat | c < l.size ensures BitAt(l, t.data, c) <==> c < l.datastart || c in used - {b} {
      assert BitAt(l, t.data, c) <==> c != b && BitAt(l, fs.data, c);
    }
  }

  /** The blocks a slot set of an inode owns, from idx lo up to hi. */
  ghost function Holding(o: Owner, inum: nat, lo: nat, hi: nat): set<nat> {
    set b | b in o && o[b].inum == inum && lo <= o[b].idx < hi
  }

  /** Once their bits are clear, the slots from lo up to hi of an inode can be emptied. */
  lemma Emptied(l: Layout, fs: Fs, t: Fs, o: Owner, inum: nat, lo: nat, hi: nat)
    requires OwnerOk(l, fs, o)
    requires forall i: nat, k: nat :: Ptr(t, i, k) == if i == inum && lo <= k < hi then 0 else Ptr(fs, i, k)
    ensures OwnerOk(l, t, o - Holding(o, inum, lo, hi))
  {
    hide Ptr;
  }

  lemma EmptyAddr(l: Layout, fs: Fs, o: Owner, inum: nat, idx: nat)
    requires Shape(l, fs) && OwnerOk(l, fs, o) && inum in fs.inode && idx <= NDIRECT
    ensures var t := WithAddr(fs, inum, idx, 0); var hi := if idx == NDIRECT then NSLOTS else idx + 1;
      Shape(l, t) && OwnerOk(l, t, o - Holding(o, inum, idx, hi))
      && forall i: nat, k: nat :: Ptr(t, i, k) == if i == inum && idx <= k < hi then 0 else Ptr(fs, i, k)
  {
    hide Word;
    var t := WithAddr(fs, inum, idx, 0);
    Emptied(l, fs, t, o, inum, idx, if idx == NDIRECT then NSLOTS else idx + 1);
  }
}
