/** Disk blocks and the little-endian 32-bit words stored in them.
    Both the log header and an inode's indirect block are arrays of such words. */
module Blocks {

  const BSIZE: nat := 512
  const WORDS: nat := 128
  const TWO32: nat := 0x1_0000_0000

  type Byte = x: int | 0 <= x < 256

  datatype RawBlock = RawBlock(bytes: seq<Byte>)
  type Block = b: RawBlock | |b.bytes| == 512 witness RawBlock(seq(512, _ => 0))

  function ZeroBlock(): (b: Block)
    ensures forall i :: 0 <= i < 512 ==> b.bytes[i] == 0
  {
    RawBlock(seq(512, _ => 0))
  }

  function Join(b0: int, b1: int, b2: int, b3: int): int {
    b0 + 0x100 * (b1 + 0x100 * (b2 + 0x100 * b3))
  }

  /** The i-th word of a block, as `((uint*)bp->data)[i]`. */
  function Word(b: Block, i: nat): (w: nat)
    requires i < WORDS
    ensures w < TWO32
  {
    Join(b.bytes[4*i], b.bytes[4*i+1], b.bytes[4*i+2], b.bytes[4*i+3])
  }

  function SplitWord(w: nat): (r: seq<Byte>)
    requires w < TWO32
    ensures |r| == 4 && Join(r[0], r[1], r[2], r[3]) == w
  {
    var d1 := w / 0x100;
    var d2 := d1 / 0x100;
    [w % 0x100, d1 % 0x100, d2 % 0x100, d2 / 0x100]
  }

  function SetWord(b: Block, i: nat, w: nat): (r: Block)
    requires i < WORDS && w < TWO32
    ensures Word(r, i) == w
    ensures forall j: nat :: j < WORDS && j != i ==> Word(r, j) == Word(b, j)
  {
    RawBlock(b.bytes[..4*i] + SplitWord(w) + b.bytes[4*i+4..])
  }

  lemma ZeroWords(i: nat)
    requires i < WORDS
    ensures Word(ZeroBlock(), i) == 0
  {
  }

  // ---- bitmap blocks ----

  const BPB: nat := 4096

  function Pow2(k: nat): (p: nat)
    ensures p >= 1
  {
    if k == 0 then 1 else 2 * Pow2(k - 1)
  }

  predicate BitOf(x: nat, k: nat) {
    if k == 0 then x % 2 == 1 else BitOf(x / 2, k - 1)
  }

  lemma {:induction false} OrBit(x: nat, k: nat, j: nat)
    requires !BitOf(x, k)
    ensures BitOf(x + Pow2(k), j) <==> j == k || BitOf(x, j)
    decreases k
  {
    if k > 0 {
      assert (x + Pow2(k)) / 2 == x / 2 + Pow2(k - 1);
      if j > 0 { OrBit(x / 2, k - 1, j - 1); }
    } else if j > 0 {
      assert (x + 1) / 2 == x / 2;
    }
  }

  lemma {:induction false} AndNotBit(x: nat, k: nat, j: nat)
    requires BitOf(x, k)
    ensures x >= Pow2(k) && (BitOf(x - Pow2(k), j) <==> j != k && BitOf(x, j))
    decreases k
  {
    if k > 0 {
      AndNotBit(x / 2, k - 1, if j > 0 then j - 1 else 0);
      assert (x - Pow2(k)) / 2 == x / 2 - Pow2(k - 1);
    } else if j > 0 {
      assert (x - 1) / 2 == x / 2;
    }
  }

  lemma {:induction false} OrBitFits(x: nat, k: nat, m: nat)
    requires !BitOf(x, k) && k < m && x < Pow2(m)
    ensures x + Pow2(k) < Pow2(m)
    decreases k
  {
    var q, p := x / 2, Pow2(m - 1);
    assert Pow2(m) == 2 * p && x <= 2 * q + 1 && q < p;
    if k > 0 {
      var w := Pow2(k - 1);
      assert Pow2(k) == 2 * w;
      OrBitFits(q, k - 1, m - 1);
      Doubled(x, q, w, p);
    } else {
      assert x == 2 * q;
    }
  }

  lemma Doubled(x: nat, q: nat, w: nat, p: nat)
    requires x <= 2 * q + 1 && q + w < p
    ensures x + 2 * w < 2 * p
  {
  }

  /** Bit bi of a bitmap block: data[bi/8] & (1 << (bi%8)). */
  predicate Bit(b: Block, bi: nat)
    requires bi < BPB
  {
    BitOf(b.bytes[bi/8], bi % 8)
  }

  function SetBit(b: Block, bi: nat): (r: Block)
    requires bi < BPB && !Bit(b, bi)
    ensures forall j: nat :: j < BPB ==> (Bit(r, j) <==> j == bi || Bit(b, j))
  {
    var x: int := b.bytes[bi/8];
    OrBitFits(x, bi % 8, 8);
    assert Pow2(8) == 256;
    var r := RawBlock(b.bytes[bi/8 := x + Pow2(bi % 8)]);
    assert forall j: nat {:trigger Bit(r, j)} :: j < BPB ==> (Bit(r, j) <==> j == bi || Bit(b, j)) by {
      forall j: nat | j < BPB ensures Bit(r, j) <==> j == bi || Bit(b, j) {
        OrBit(x, bi % 8, j % 8);
      }
    }
    r
  }

  function ClearBit(b: Block, bi: nat): (r: Block)
    requires bi < BPB && Bit(b, bi)
    ensures forall j: nat :: j < BPB ==> (Bit(r, j) <==> j != bi && Bit(b, j))
  {
    var x: int := b.bytes[bi/8];
    AndNotBit(x, bi % 8, 0);
    var r := RawBlock(b.bytes[bi/8 := x - Pow2(bi % 8)]);
    assert forall j: nat {:trigger Bit(r, j)} :: j < BPB ==> (Bit(r, j) <==> j != bi && Bit(b, j)) by {
      forall j: nat | j < BPB ensures Bit(r, j) <==> j != bi && Bit(b, j) {
        AndNotBit(x, bi % 8, j % 8);
      }
    }
    r
  }
}
