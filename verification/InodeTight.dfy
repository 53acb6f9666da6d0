/** A disk on which one chunk of filewrite logs all ten blocks an operation may log.
    It has four bitmap blocks, and each of them has exactly one free block left: 58 files of
    full size hold every other data block but twelve, and file 1 ends inside its twelfth block. */
module InodeTight {
  import opened Blocks
  import opened Dinodes
  import opened Inodes
  import opened InodeCode

  const FILES: nat := 58
  const OFF: nat := 11 * 512 + 1

  const DISK: Layout := Layout(12289, 2, 20, 4095)

  predicate Free(b: nat) { b == 4095 || b == 4096 || b == 8192 || b == 12288 }

  /** The e-th data block that is in use, and its place in that order. */
  function Nth(e: nat): nat { if e < 4095 then 4097 + e else 4098 + e }

  function Rank(b: nat): nat
    requires b >= 4098 || b == 4097
  {
    if b < 8192 then b - 4097 else b - 4098
  }

  /** What the k-th slot of inode i holds: twelve blocks of file 1, then 141 for each of the others. */
  function Held(i: nat, k: nat): nat {
    if i == 1 && k < NDIRECT then Nth(k)
    else if 2 <= i < 2 + FILES && k < NSLOTS then Nth(12 + 141 * (i - 2) + k)
    else 0
  }

  function Home(b: nat): Slot
    requires DISK.datastart <= b < DISK.size && !Free(b)
  {
    var e := Rank(b);
    if e < 12 then Slot(1, e) else Slot(2 + (e - 12) / 141, (e - 12) % 141)
  }

  lemma HomeHolds(b: nat)
    requires DISK.datastart <= b < DISK.size && !Free(b)
    ensures var s := Home(b); s.idx < NSLOTS && Held(s.inum, s.idx) == b
  {
  }

  lemma HeldHome(i: nat, k: nat)
    requires Held(i, k) != 0
    ensures var b := Held(i, k); DISK.datastart <= b < DISK.size && !Free(b) && Home(b) == Slot(i, k)
  {
    if i != 1 { Quotient(i - 2, k); }
  }

  lemma Quotient(q: nat, k: nat)
    requires k < 141
    ensures (141 * q + k) / 141 == q && (141 * q + k) % 141 == k
  {
  }

  // ---- the blocks ----

  function ByteFrom(e: nat, i: nat): Byte
    requires e < 8190 && i < 512
  {
    SplitWord(Nth(e + i / 4))[i % 4]
  }

  lemma ByteIs(e: nat, w: nat, j: nat)
    requires e < 8190 && w < WORDS && j < 4
    ensures ByteFrom(e, 4 * w + j) == SplitWord(Nth(e + w))[j]
  {
    hide SplitWord;
    assert (4 * w + j) / 4 == w && (4 * w + j) % 4 == j;
  }

  /** A block of consecutive block numbers. */
  function WordsFrom(e: nat): (b: Block)
    requires e < 8190
  {
    RawBlock(seq(512, i requires 0 <= i < 512 => ByteFrom(e, i)))
  }

  lemma WordsAre(e: nat, w: nat)
    requires e < 8190 && w < WORDS
    ensures Word(WordsFrom(e), w) == Nth(e + w)
  {
    hide SplitWord, ByteFrom;
    ByteIs(e, w, 0);
    ByteIs(e, w, 1);
    ByteIs(e, w, 2);
    ByteIs(e, w, 3);
  }

  function FullBlock(): (b: Block)
    ensures forall j: nat :: j < BPB ==> Bit(b, j)
  {
    assert forall k: nat :: k < 8 ==> BitOf(255, k) by {
      forall k: nat | k < 8 ensures BitOf(255, k) { AllOnes(k); }
    }
    RawBlock(seq(512, _ => 255))
  }

  lemma AllOnes(k: nat)
    requires k < 8
    ensures BitOf(255, k)
  {
    assert BitOf(1, 0) && BitOf(3, 0) && BitOf(7, 0) && BitOf(15, 0) && BitOf(31, 0) && BitOf(63, 0) && BitOf(127, 0);
    assert k > 0 ==> BitOf(255, k) == BitOf(127, k - 1);
    assert k > 1 ==> BitOf(127, k - 1) == BitOf(63, k - 2);
    assert k > 2 ==> BitOf(63, k - 2) == BitOf(31, k - 3);
    assert k > 3 ==> BitOf(31, k - 3) == BitOf(15, k - 4);
    assert k > 4 ==> BitOf(15, k - 4) == BitOf(7, k - 5);
    assert k > 5 ==> BitOf(7, k - 5) == BitOf(3, k - 6);
    assert k > 6 ==> BitOf(3, k - 6) == BitOf(1, k - 7);
  }

  /** One free bit: the last of the first bitmap block, the first of the others. */
  function MapBlock(j: nat): Block {
    ClearBit(FullBlock(), if j == 0 then 4095 else 0)
  }

  lemma MapBits(b: nat)
    requires b < DISK.size
    ensures Bit(MapBlock(b / BPB), b % BPB) <==> !Free(b)
  {
    hide Bit, FullBlock, ClearBit;
  }

  function BlockOf(b: nat): Block
    requires b < DISK.size
  {
    if 20 <= b < 24 then MapBlock(b - 20)
    else if b >= 4097 && !Free(b) && Home(b).idx == NDIRECT && Rank(b) < 8189 then WordsFrom(Rank(b) + 1)
    else ZeroBlock()
  }

  function Data(): (d: seq<Block>) { seq(DISK.size, b requires 0 <= b < DISK.size => BlockOf(b)) }

  function Slots(i: nat): seq<nat> { seq(13, k requires 0 <= k => Held(i, k)) }

  function File(i: nat): Inode { Inode(2, 0, 0, 1, if i == 1 then OFF else MAXFILE * BSIZE, Slots(i)) }

  function Files(): map<nat, Inode> { map i: nat | 1 <= i < 2 + FILES :: File(i) }

  function Image(): Fs { Fs(Data(), Files()) }

  ghost function Owners(): Owner { map b: nat | DISK.datastart <= b < DISK.size && !Free(b) :: Home(b) }

  // ---- the image satisfies the invariant ----

  lemma IndirectIs(i: nat)
    requires 2 <= i < 2 + FILES
    ensures BlockAt(Data(), Held(i, NDIRECT)) == WordsFrom(12 + 141 * (i - 2) + 13)
  {
    hide MapBlock, WordsFrom, Home;
    HeldHome(i, NDIRECT);
    var b := Held(i, NDIRECT);
    assert b == Nth(12 + 141 * (i - 2) + 12) && b >= 4097 && Rank(b) == 12 + 141 * (i - 2) + 12;
  }

  lemma SlotsAre(i: nat, k: nat)
    ensures Ptr(Image(), i, k) == Held(i, k)
  {
    hide Data, Word, Nth;
    if 2 <= i < 2 + FILES && NDIRECT < k < NSLOTS {
      IndirectIs(i);
      WordsAre(12 + 141 * (i - 2) + 13, k - 13);
      assert Held(i, NDIRECT) != 0 by { HeldPositive(i); }
    }
  }

  lemma HeldPositive(i: nat)
    requires 2 <= i < 2 + FILES
    ensures Held(i, NDIRECT) != 0
  {
  }

  lemma ImageOwners()
    ensures OwnerOk(DISK, Image(), Owners())
  {
    hide Image, Held, Home, Ptr;
    forall b | b in Owners() ensures DISK.datastart <= b < DISK.size && Owners()[b].idx < NSLOTS && Ptr(Image(), Owners()[b].inum, Owners()[b].idx) == b && b != 0 {
      HomeHolds(b);
      SlotsAre(Owners()[b].inum, Owners()[b].idx);
    }
    forall i: nat, k: nat | Ptr(Image(), i, k) != 0 ensures Ptr(Image(), i, k) in Owners() && Owners()[Ptr(Image(), i, k)] == Slot(i, k) {
      SlotsAre(i, k);
      HeldHome(i, k);
    }
  }

  lemma ImageBits()
    ensures BitsOk(DISK, Image(), Owners(), {})
  {
    hide MapBlock, Bit, Home, WordsFrom;
    forall b: nat | b < DISK.size ensures BitAt(DISK, Image().data, b) <==> b < DISK.datastart || b in Owners() {
      MapBits(b);
    }
  }

  lemma ImageMapped()
    ensures Mapped(Image())
  {
    hide Ptr, Data;
    forall i: nat, bn: nat | InUse(Image(), i, bn) ensures bn < MAXFILE && Ptr(Image(), i, FileIdx(bn)) != 0 {
      SlotsAre(i, FileIdx(bn));
    }
  }

  /** Every block but the four free ones belongs to one slot, and the bitmap says so. */
  lemma ImageOk()
    ensures Inv(DISK, Image(), Owners())
  {
    ImageOwners();
    ImageBits();
    ImageMapped();
    hide Ptr, OwnerOk, BitsOk, Mapped, BlockOf;
  }

  // ---- the write ----

  lemma FourVacant()
    ensures Vacant(DISK, Owners()) == {4095, 4096, 8192, 12288} && |Vacant(DISK, Owners())| == 4
  {
    assert Vacant(DISK, Owners()) == {4095, 4096, 8192, 12288};
  }

  lemma FourMissing()
    ensures Span(OFF, 1536) == 4 && Missing(Image(), 1, 11, 15) == 4
    ensures Ptr(Image(), 1, 11) != 0 && Ptr(Image(), 1, NDIRECT) == 0
  {
    SlotsAre(1, 11);
    SlotsAre(1, 12);
    SlotsAre(1, 13);
    SlotsAre(1, 14);
    SlotsAre(1, 15);
    var s := Image();
    hide Ptr, Image;
    assert EmptySlots(s, 1, 11, 11) == 0 && EmptySlots(s, 1, 11, 12) == 0;
    assert EmptySlots(s, 1, 11, 13) == 1 && EmptySlots(s, 1, 11, 14) == 2 && EmptySlots(s, 1, 11, 15) == 3;
  }

  /** New slots hold blocks that were vacant, and no two of those share a bitmap block. */
  lemma NewApart(b: Fs, o: Owner)
    requires Owned(DISK, b, o, {}) && Uses(DISK, Image(), Owners(), b, o, 1, 4)
    requires forall k: nat :: 12 <= k <= 15 ==> Ptr(Image(), 1, k) == 0 && Ptr(b, 1, k) != 0
    ensures forall j: nat, k: nat :: 12 <= j < k <= 15 ==> BitmapBlock(DISK, Ptr(b, 1, j)) != BitmapBlock(DISK, Ptr(b, 1, k))
  {
    hide Ptr, Image, Vacant, Owners, BitAt;
    FourVacant();
  }

  lemma FileOne()
    ensures 1 in Files() && Files()[1] == File(1)
  {
  }

  lemma AtLeastTen(b: Fs, o: Owner, logged: set<nat>)
    requires Inv(DISK, b, o) && Uses(DISK, Image(), Owners(), b, o, 1, 4)
    requires Touched(DISK, Image(), b, 1, 11, 15, logged) && InodeBlock(DISK, 1) in logged
    ensures |logged| >= 10
  {
    FourMissing();
    NoEntries(Image(), 1, 12);
    NoEntries(Image(), 1, 13);
    NoEntries(Image(), 1, 14);
    hide Ptr, Image, Uses, Touched, Owned, Vacant, Missing;
    TouchedFour(DISK, Image(), b, 1, logged);
    NewApart(b, o);
    TenBlocks(DISK, Image(), b, o, 1, OFF, logged);
  }

  /** The write neither fails nor panics: the four blocks it must allocate are there. */
  lemma CanWrite()
    ensures Inv(DISK, Image(), Owners()) && 1 in Files() && Files()[1].typ != T_DEV && !WriteFails(Files()[1].size, OFF, 1536)
    ensures OFF / BSIZE == 11 && Span(OFF, 1536) == 4 && Cost(OFF, 1536) <= 10 && Files()[1].size < OFF + 1536
    ensures Missing(Image(), 1, 11, 15) == 4 == |FreeBlocks(DISK, Image())|
  {
    ImageOk();
    FourMissing();
    FileOne();
    ChunkFits(OFF, 1536);
    FourVacant();
    FreeVacant(DISK, Image(), Owners());
    hide Inv, Image, Files, Missing, FreeBlocks, Vacant, Slots;
  }

  /** A file of 5633 bytes, written by one chunk of 1536 at its end: the write succeeds and logs
      ten blocks, as many as MAXOPBLOCKS allows. */
  method TenLogged(src: seq<Byte>) returns (fs: FileSystem, r: IoResult)
    requires |src| == 1536
    ensures fresh(fs) && fs.l == DISK && fs.Valid() && 1 in fs.inode
    ensures r == Done(1536) && |fs.logged| == 10
    ensures Content(fs.S(), 1) == Splice(Content(Image(), 1), OFF, src)
  {
    CanWrite();
    hide Inv, Data, Files, Owners, Missing, FreeBlocks, Touched, Uses, Content, Splice, Span, Cost, Grown;
    fs := new FileSystem(DISK, Data(), Files(), Owners());
    ghost var w;
    r, w := fs.Writei(1, src, OFF);
    Subset(fs.logged, w);
    AtLeastTen(fs.S(), fs.o, fs.logged);
  }
}
