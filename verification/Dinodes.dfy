/** Inodes as fs.h lays them out on disk: 64 bytes, eight to a block. */
module Dinodes {
  import opened Blocks

  const NDIRECT: nat := 12
  const IPB: nat := 8
  const DWORDS: nat := 16      // words of a dinode

  type Short = x: int | -32768 <= x < 32768

  datatype Inode = Inode(typ: Short, major: Short, minor: Short, nlink: Short, size: nat, addrs: seq<nat>)

  /** The sizes and block numbers are 32-bit. */
  predicate Storable(ip: Inode) {
    ip.size < TWO32 && |ip.addrs| == NDIRECT + 1 && forall k :: 0 <= k < |ip.addrs| ==> ip.addrs[k] < TWO32
  }

  function Unsigned(x: Short): nat { if x < 0 then x + 0x1_0000 else x }

  function Signed(h: nat): Short
    requires h < 0x1_0000
  {
    if h < 0x8000 then h else h - 0x1_0000
  }

  function Pair(low: Short, high: Short): (w: nat)
    ensures w < TWO32
  {
    Unsigned(low) + 0x1_0000 * Unsigned(high)
  }

  lemma PairParts(low: Short, high: Short)
    ensures Signed(Pair(low, high) % 0x1_0000) == low && Signed(Pair(low, high) / 0x1_0000) == high
  {
  }

  /** The words of a dinode: four shorts, the size, the addresses. */
  function Fields(ip: Inode): (ws: seq<nat>)
    requires Storable(ip)
    ensures |ws| == DWORDS && forall k :: 0 <= k < DWORDS ==> ws[k] < TWO32
  {
    [Pair(ip.typ, ip.major), Pair(ip.minor, ip.nlink), ip.size] + ip.addrs
  }

  function SetWords(b: Block, at: nat, ws: seq<nat>): (r: Block)
    requires at + |ws| <= WORDS && forall k :: 0 <= k < |ws| ==> ws[k] < TWO32
    ensures forall j: nat :: j < WORDS ==> Word(r, j) == if at <= j < at + |ws| then ws[j - at] else Word(b, j)
    decreases |ws|
  {
    if ws == [] then b
    else SetWord(SetWords(b, at, ws[..|ws| - 1]), at + |ws| - 1, ws[|ws| - 1])
  }

  /** iupdate's copy of an inode into slot k of a block. */
  function Store(b: Block, k: nat, ip: Inode): Block
    requires k < IPB && Storable(ip)
  {
    SetWords(b, DWORDS * k, Fields(ip))
  }

  function Field(b: Block, k: nat, i: nat): (w: nat)
    requires k < IPB && i < DWORDS
    ensures w < TWO32
  {
    Word(b, DWORDS * k + i)
  }

  function Addrs(b: Block, k: nat): (a: seq<nat>)
    requires k < IPB
    ensures |a| == NDIRECT + 1
  {
    seq(NDIRECT + 1, i requires 0 <= i <= NDIRECT => Field(b, k, 3 + i))
  }

  /** ilock's copy of slot k of a block. */
  function Load(b: Block, k: nat): Inode
    requires k < IPB
  {
    var w0, w1 := Field(b, k, 0), Field(b, k, 1);
    Inode(Signed(w0 % 0x1_0000), Signed(w0 / 0x1_0000), Signed(w1 % 0x1_0000), Signed(w1 / 0x1_0000), Field(b, k, 2), Addrs(b, k))
  }

  lemma StoreField(b: Block, k: nat, ip: Inode, j: nat, i: nat)
    requires k < IPB && j < IPB && i < DWORDS && Storable(ip)
    ensures Field(Store(b, k, ip), j, i) == if j == k then Fields(ip)[i] else Field(b, j, i)
  {
    hide Word, SetWord, Fields;
  }

  /** What is stored is read back, and the other seven inodes of the block are as they were. */
  lemma StoreLoad(b: Block, k: nat, ip: Inode, j: nat)
    requires k < IPB && j < IPB && Storable(ip)
    ensures Load(Store(b, k, ip), j) == if j == k then ip else Load(b, j)
  {
    hide Field, Store, Signed, Pair;
    PairParts(ip.typ, ip.major);
    PairParts(ip.minor, ip.nlink);
    forall i: nat | i < DWORDS ensures Field(Store(b, k, ip), j, i) == if j == k then Fields(ip)[i] else Field(b, j, i) {
      StoreField(b, k, ip, j, i);
    }
  }
}
