/**
 The on-disk block bitmap (kernel/fs.c: balloc, bfree, bzero): one bit per
 block, BSIZE*8 to a bitmap block. Blocks are seen through the buffer cache
 and the log, that is, as bread returns them.
 */
module Bitmap {

  const BSIZE: nat := 1024
  const BPB: nat := 8192

  type Block = seq<nat>

  ghost predicate IsBlock(b: Block) {
    |b| == BSIZE && forall i :: 0 <= i < BSIZE ==> b[i] < 256
  }

  function Zeros(): (b: Block)
    ensures IsBlock(b) && forall i :: 0 <= i < BSIZE ==> b[i] == 0
  {
    seq(BSIZE, _ => 0)
  }

  // ---------------------------------------------------------------- bits of a byte

  // 1 << k
  function Power(k: nat): (p: nat)
    ensures p > 0
  {
    if k == 0 then 1 else 2 * Power(k - 1)
  }

  // (x >> k) & 1
  function BitOf(x: nat, k: nat): (b: nat)
    ensures b < 2
  {
    if k == 0 then x % 2 else BitOf(x / 2, k - 1)
  }

  // x | (1 << k) for a clear bit adds to x and leaves the other bits.
  lemma {:induction false} SetBit(x: nat, k: nat, j: nat)
    requires BitOf(x, k) == 0
    ensures BitOf(x + Power(k), j) == if j == k then 1 else BitOf(x, j)
  {
    if k == 0 {
      assert (x + 1) / 2 == x / 2 && (x + 1) % 2 == 1;
    } else {
      var p := Power(k - 1);
      assert (x + 2 * p) / 2 == x / 2 + p && (x + 2 * p) % 2 == x % 2;
      if j > 0 {
        SetBit(x / 2, k - 1, j - 1);
      }
    }
  }

  // x & ~(1 << k) for a set bit subtracts from x and leaves the other bits.
  lemma {:induction false} ClearBit(x: nat, k: nat, j: nat)
    requires BitOf(x, k) == 1
    ensures x >= Power(k) && BitOf(x - Power(k), j) == if j == k then 0 else BitOf(x, j)
  {
    if k == 0 {
      assert (x - 1) / 2 == x / 2 && (x - 1) % 2 == 0;
    } else {
      var p := Power(k - 1);
      ClearBit(x / 2, k - 1, if j > 0 then j - 1 else 0);
      assert (x - 2 * p) / 2 == x / 2 - p && (x - 2 * p) % 2 == x % 2;
    }
  }

  lemma {:induction false} SetBitFits(x: nat, k: nat, n: nat)
    requires BitOf(x, k) == 0 && x < Power(n) && k < n
    ensures x + Power(k) < Power(n)
  {
    var q := Power(n - 1);
    assert Power(n) == 2 * q;
    if k == 0 {
      EvenBelow(x, q);
    } else {
      var p := Power(k - 1);
      assert Power(k) == 2 * p && BitOf(x / 2, k - 1) == 0;
      HalfBelow(x, q);
      SetBitFits(x / 2, k - 1, n - 1);
      DoubleBelow(x, p, q);
    }
  }

  lemma EvenBelow(x: nat, q: nat)
    requires x % 2 == 0 && x < 2 * q
    ensures x + 1 < 2 * q
  {
  }

  lemma HalfBelow(x: nat, q: nat)
    requires x < 2 * q
    ensures x / 2 < q
  {
  }

  lemma DoubleBelow(x: nat, p: nat, q: nat)
    requires x / 2 + p < q
    ensures x + 2 * p < 2 * q
  {
  }

  lemma ByteFits()
    ensures Power(8) == 256
  {
    assert Power(4) == 16;
  }

  // ---------------------------------------------------------------- the bitmap

  // The bitmap starts at block bmapstart; data blocks start at block datastart.
  datatype Layout = Layout(size: nat, bmapstart: nat, datastart: nat)

  ghost predicate GoodLayout(g: Layout) {
    0 < g.size && 0 < g.bmapstart && g.bmapstart + (g.size - 1) / BPB < g.datastart <= g.size
  }

  // BBLOCK
  function BBlock(g: Layout, b: nat): nat {
    b / BPB + g.bmapstart
  }

  ghost predicate WellFormed(g: Layout, blocks: seq<Block>) {
    && GoodLayout(g) && |blocks| == g.size
    && forall b :: 0 <= b < |blocks| ==> IsBlock(blocks[b])
  }

  lemma BBlockIn(g: Layout, b: nat)
    requires GoodLayout(g) && b < g.size
    ensures g.bmapstart <= BBlock(g, b) < g.datastart
  {
  }

  function Used(g: Layout, blocks: seq<Block>, b: nat): bool
  {
    BBlock(g, b) < |blocks| && b % BPB / 8 < |blocks[BBlock(g, b)]|
    && BitOf(blocks[BBlock(g, b)][b % BPB / 8], b % BPB % 8) == 1
  }

  predicate IsMap(g: Layout, b: nat) {
    g.bmapstart <= b < g.datastart
  }

  // The bit of block b, and nothing else in the bitmap, was turned to used; no
  // block outside the bitmap changed, except b as stated.
  ghost predicate Turned(g: Layout, x: seq<Block>, y: seq<Block>, b: nat, used: bool) {
    && WellFormed(g, y) && |x| == |y|
    && (forall c: nat :: c < g.size ==> Used(g, y, c) == if c == b then used else Used(g, x, c))
    && (forall c: nat :: c < g.size && !IsMap(g, c) && c != b ==> y[c] == x[c])
  }

  function Put(b: Block, i: nat, y: nat): Block
    requires i < |b|
  {
    b[i := y]
  }

  // The blocks with bit b flipped.
  function Flip(g: Layout, blocks: seq<Block>, b: nat, used: bool): seq<Block>
    requires BBlock(g, b) < |blocks| && |blocks[BBlock(g, b)]| == BSIZE
    requires !used ==> Used(g, blocks, b)
  {
    var m, k := BBlock(g, b), b % BPB % 8;
    var x := blocks[m][b % BPB / 8];
    assert !used ==> x >= Power(k) by { if !used { ClearBit(x, k, 0); } }
    var y: nat := if used then x + Power(k) else x - Power(k);
    blocks[m := Put(blocks[m], b % BPB / 8, y)]
  }

  lemma FlipTurns(g: Layout, blocks: seq<Block>, b: nat, used: bool)
    requires WellFormed(g, blocks) && b < g.size && Used(g, blocks, b) == !used
    ensures BBlock(g, b) < |blocks| && |blocks[BBlock(g, b)]| == BSIZE
    ensures Turned(g, blocks, Flip(g, blocks, b, used), b, used)
    ensures !IsMap(g, b) ==> Flip(g, blocks, b, used)[b] == blocks[b]
  {
    BBlockIn(g, b);
    var y := Flip(g, blocks, b, used);
    var m, k := BBlock(g, b), b % BPB % 8;
    var x := blocks[m][b % BPB / 8];
    assert IsBlock(blocks[m]);
    ByteFits();
    if used {
      SetBitFits(x, k, 8);
    }
    forall c: nat | c < |y| ensures IsBlock(y[c]) {
      assert IsBlock(blocks[c]);
    }
    forall c: nat | c < g.size ensures Used(g, y, c) == if c == b then used else Used(g, blocks, c) {
      FlipUsed(g, blocks, b, used, c);
    }
  }

  lemma FlipUsed(g: Layout, blocks: seq<Block>, b: nat, used: bool, c: nat)
    requires WellFormed(g, blocks) && b < g.size && c < g.size && Used(g, blocks, b) == !used
    requires BBlock(g, b) < |blocks| && |blocks[BBlock(g, b)]| == BSIZE
    ensures Used(g, Flip(g, blocks, b, used), c) == if c == b then used else Used(g, blocks, c)
  {
    BBlockIn(g, c);
    var m, i, k := BBlock(g, b), b % BPB / 8, b % BPB % 8;
    var x := blocks[m][i];
    if c != b && BBlock(g, c) == m && c % BPB / 8 == i && c % BPB % 8 == k {
      SameBit(b, c);
    }
    if used { SetBit(x, k, c % BPB % 8); } else { ClearBit(x, k, c % BPB % 8); }
  }

  // A bit is found by its block, byte and position.
  lemma SameBit(b: nat, c: nat)
    requires b / BPB == c / BPB && b % BPB / 8 == c % BPB / 8 && b % BPB % 8 == c % BPB % 8
    ensures b == c
  {
    var x, y := b % BPB, c % BPB;
    assert x == x / 8 * 8 + x % 8 && y == y / 8 * 8 + y % 8;
  }
}
