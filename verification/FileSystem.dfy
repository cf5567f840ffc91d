/**
 Files and their blocks (kernel/fs.c: bmap, itrunc, readi, writei). An inode
 holds NDIRECT block numbers and one of a block of NINDIRECT more. Blocks are
 seen as bread returns them, through the buffer cache and the log.
 */
module FileSystem {
  import opened Bitmap

  const NDIRECT: nat := 12
  const NINDIRECT: nat := 256
  const MAXFILE: nat := 268
  const UINT: nat := 0x1_0000_0000

  type Blocks = seq<Block>

  datatype Inode = Inode(addrs: seq<nat>, size: nat)
  type Inodes = map<nat, Inode>

  // A place that may refer to a data block.
  datatype Slot =
    | Direct(n: nat, i: nat)    // ip->addrs[i]
    | Indirect(n: nat)          // ip->addrs[NDIRECT]
    | Via(n: nat, j: nat)       // entry j of the indirect block
  type Owners = map<nat, Slot>

  // ---------------------------------------------------------------- words in a block

  // ((uint*)data)[j], little endian
  function Word(b: Block, j: nat): nat
    requires |b| == BSIZE && j < NINDIRECT
  {
    b[4 * j] + 256 * b[4 * j + 1] + 65536 * b[4 * j + 2] + 16777216 * b[4 * j + 3]
  }

  function PutWord(b: Block, j: nat, v: nat): (c: Block)
    requires |b| == BSIZE && j < NINDIRECT
    ensures |c| == BSIZE
  {
    Put(Put(Put(Put(b, 4 * j, v % 256), 4 * j + 1, v / 256 % 256), 4 * j + 2, v / 65536 % 256), 4 * j + 3, v / 16777216)
  }

  lemma WordPut(b: Block, j: nat, v: nat, k: nat)
    requires IsBlock(b) && j < NINDIRECT && k < NINDIRECT && v < UINT
    ensures IsBlock(PutWord(b, j, v))
    ensures Word(PutWord(b, j, v), k) == if k == j then v else Word(b, k)
  {
    FourBytes(v);
  }

  lemma FourBytes(v: nat)
    requires v < UINT
    ensures v == v % 256 + 256 * (v / 256 % 256) + 65536 * (v / 65536 % 256) + 16777216 * (v / 16777216)
    ensures v / 16777216 < 256
  {
    assert v == v % 256 + 256 * (v / 256);
    assert v / 256 == v / 256 % 256 + 256 * (v / 65536);
    assert v / 65536 == v / 65536 % 256 + 256 * (v / 16777216);
  }

  // ---------------------------------------------------------------- who refers to which block

  function Entry(blocks: Blocks, a: nat, j: nat): nat {
    if a == 0 || a >= |blocks| || |blocks[a]| != BSIZE || j >= NINDIRECT then 0 else Word(blocks[a], j)
  }

  // The block number in a slot; 0 is none.
  function Ref(blocks: Blocks, inodes: Inodes, s: Slot): nat {
    if s.n !in inodes || |inodes[s.n].addrs| != NDIRECT + 1 then 0
    else match s
         case Direct(n, i) => if i < NDIRECT then inodes[n].addrs[i] else 0
         case Indirect(n) => inodes[n].addrs[NDIRECT]
         case Via(n, j) => Entry(blocks, inodes[n].addrs[NDIRECT], j)
  }

  // The bitmap marks exactly the blocks before the data area and the data
  // blocks that some slot refers to; no two slots refer to the same block.
  ghost predicate FsOk(g: Layout, blocks: Blocks, inodes: Inodes, o: Owners) {
    && WellFormed(g, blocks) && g.size < UINT
    && (forall n :: n in inodes ==> |inodes[n].addrs| == NDIRECT + 1)
    && (forall b: nat :: b < g.size ==> (Used(g, blocks, b) <==> b < g.datastart || b in o))
    && (forall b :: b in o ==> g.datastart <= b < g.size && Ref(blocks, inodes, o[b]) == b)
    && (forall s: Slot :: Ref(blocks, inodes, s) != 0 ==> Ref(blocks, inodes, s) in o && o[Ref(blocks, inodes, s)] == s)
  }

  // Every data block is referred to by at most one slot, and marked in use
  // exactly when there is one.
  lemma BlockOwnership(g: Layout, blocks: Blocks, inodes: Inodes, o: Owners, b: nat, s: Slot, t: Slot)
    requires FsOk(g, blocks, inodes, o) && g.datastart <= b < g.size
    ensures Ref(blocks, inodes, s) == b && Ref(blocks, inodes, t) == b ==> s == t
    ensures Used(g, blocks, b) <==> exists u: Slot :: Ref(blocks, inodes, u) == b
  {
    if Used(g, blocks, b) {
      assert Ref(blocks, inodes, o[b]) == b;
    }
  }

  // ---------------------------------------------------------------- the bytes of a file

  // The slot of the bn-th block of a file.
  function SlotOf(n: nat, bn: nat): Slot {
    if bn < NDIRECT then Direct(n, bn) else Via(n, bn - NDIRECT)
  }

  // Byte off of file n as stored, 0 in a hole. Beyond the size it is not part
  // of the file.
  function ByteAt(blocks: Blocks, inodes: Inodes, n: nat, off: nat): nat {
    var a := Ref(blocks, inodes, SlotOf(n, off / BSIZE));
    if a == 0 || a >= |blocks| || |blocks[a]| != BSIZE then 0 else blocks[a][off % BSIZE]
  }

  ghost predicate SameBytes(x: Blocks, i: Inodes, y: Blocks, i': Inodes) {
    forall n: nat, off: nat :: ByteAt(y, i', n, off) == ByteAt(x, i, n, off)
  }

  // ---------------------------------------------------------------- taking a block into use

  // balloc gave b, now in use and zero.
  ghost predicate Allocated(g: Layout, x: Blocks, y: Blocks, b: nat) {
    b < g.size && Turned(g, x, y, b, true) && !Used(g, x, b) && y[b] == Zeros()
  }

  lemma AllocatedFresh(g: Layout, x: Blocks, y: Blocks, i: Inodes, o: Owners, b: nat)
    requires FsOk(g, x, i, o) && Allocated(g, x, y, b)
    ensures g.datastart <= b && b !in o && b != 0
    ensures forall s: Slot :: Ref(x, i, s) != b && Ref(y, i, s) == Ref(x, i, s)
    ensures forall a: nat, j: nat :: g.datastart <= a && a != b ==> Entry(y, a, j) == Entry(x, a, j)
    ensures forall j: nat :: Entry(y, b, j) == 0
  {
    forall s: Slot ensures Ref(x, i, s) != b && Ref(y, i, s) == Ref(x, i, s) {
      if s.Via? && Ref(x, i, Indirect(s.n)) != 0 {
        assert Ref(x, i, Indirect(s.n)) in o;
      }
    }
  }

  // Slot t, which was empty, now refers to the new block b; no other slot changed.
  ghost predicate Took(g: Layout, x: Blocks, i: Inodes, y: Blocks, i': Inodes, o: Owners, t: Slot, b: nat) {
    && WellFormed(g, y) && b < g.size && g.datastart <= b
    && (forall n :: n in i' ==> |i'[n].addrs| == NDIRECT + 1)
    && (forall c: nat :: c < g.size ==> Used(g, y, c) == (c == b || Used(g, x, c)))
    && (forall s: Slot :: Ref(y, i', s) == if s == t then b else Ref(x, i, s))
    && Ref(x, i, t) == 0 && y[b] == Zeros() && |x| == |y|
    && (forall c :: c in o && !o[c].Indirect? && c < |x| ==> y[c] == x[c])
  }

  lemma TookOk(g: Layout, x: Blocks, i: Inodes, y: Blocks, i': Inodes, o: Owners, t: Slot, b: nat)
    requires FsOk(g, x, i, o) && Took(g, x, i, y, i', o, t, b) && b !in o && b != 0
    ensures FsOk(g, y, i', o[b := t])
  {
    hide Ref, Used;
    var o' := o[b := t];
    forall c | c in o' ensures g.datastart <= c < g.size && Ref(y, i', o'[c]) == c {
      assert c != b ==> Ref(x, i, o[c]) == c;
    }
    forall s: Slot | Ref(y, i', s) != 0 ensures Ref(y, i', s) in o' && o'[Ref(y, i', s)] == s {
      assert Ref(y, i', s) == if s == t then b else Ref(x, i, s);
    }
  }

  lemma TookBytes(g: Layout, x: Blocks, i: Inodes, y: Blocks, i': Inodes, o: Owners, t: Slot, b: nat)
    requires FsOk(g, x, i, o) && Took(g, x, i, y, i', o, t, b)
    ensures SameBytes(x, i, y, i')
  {
    hide Ref, Used;
    forall m: nat, off: nat ensures ByteAt(y, i', m, off) == ByteAt(x, i, m, off) {
      var s := SlotOf(m, off / BSIZE);
      assert Ref(y, i', s) == if s == t then b else Ref(x, i, s);
      assert Ref(x, i, s) != 0 ==> Ref(x, i, s) in o;
    }
  }

  // The new block goes into ip->addrs[k].
  function AddrSlot(n: nat, k: nat): Slot {
    if k < NDIRECT then Direct(n, k) else Indirect(n)
  }

  function SetAddr(i: Inodes, n: nat, k: nat, b: nat): Inodes
    requires n in i && k < |i[n].addrs|
  {
    i[n := i[n].(addrs := i[n].addrs[k := b])]
  }

  lemma AttachAddr(g: Layout, x: Blocks, y: Blocks, i: Inodes, o: Owners, n: nat, k: nat, b: nat)
    requires FsOk(g, x, i, o) && Allocated(g, x, y, b) && n in i && k <= NDIRECT && i[n].addrs[k] == 0
    ensures b !in o && b != 0 && Took(g, x, i, y, SetAddr(i, n, k, b), o, AddrSlot(n, k), b)
  {
    var i' := SetAddr(i, n, k, b);
    AllocatedFresh(g, x, y, i, o, b);
    forall s: Slot ensures Ref(y, i', s) == if s == AddrSlot(n, k) then b else Ref(x, i, s) {
      assert Ref(y, i, s) == Ref(x, i, s);
    }
  }

  // The new block goes into entry j of the indirect block a.
  lemma AttachVia(g: Layout, x: Blocks, y: Blocks, i: Inodes, o: Owners, n: nat, j: nat, b: nat)
    requires FsOk(g, x, i, o) && Allocated(g, x, y, b) && n in i && j < NINDIRECT
    requires i[n].addrs[NDIRECT] != 0 && Ref(x, i, Via(n, j)) == 0
    ensures var a := i[n].addrs[NDIRECT];
            && b !in o && b != 0 && a < |y| && IsBlock(y[a])
            && Took(g, x, i, y[a := PutWord(y[a], j, b)], i, o, Via(n, j), b)
  {
    var a := i[n].addrs[NDIRECT];
    AllocatedFresh(g, x, y, i, o, b);
    assert Ref(x, i, Indirect(n)) == a && a in o && o[a] == Indirect(n);
    var z := y[a := PutWord(y[a], j, b)];
    WordPut(y[a], j, b, j);
    forall s: Slot ensures Ref(z, i, s) == if s == Via(n, j) then b else Ref(x, i, s) {
      PutVia(x, y, i, o, n, j, b, a, s);
    }
    UsedElsewhere(g, y, z, a);
  }

  // Writing entry j of inode n's indirect block changes that slot alone.
  lemma PutVia(x: Blocks, y: Blocks, i: Inodes, o: Owners, n: nat, j: nat, b: nat, a: nat, s: Slot)
    requires n in i && |i[n].addrs| == NDIRECT + 1 && i[n].addrs[NDIRECT] == a && a != 0 && a in o
    requires o[a] == Indirect(n)
    requires j < NINDIRECT && b < UINT && a < |y| && IsBlock(y[a])
    requires forall t: Slot :: Ref(x, i, t) != 0 ==> Ref(x, i, t) in o && o[Ref(x, i, t)] == t
    requires Ref(y, i, s) == Ref(x, i, s)
    ensures Ref(y[a := PutWord(y[a], j, b)], i, s) == if s == Via(n, j) then b else Ref(x, i, s)
  {
    hide Word, PutWord;
    if s.Via? && s.j < NINDIRECT {
      WordPut(y[a], j, b, s.j);
      EntryElsewhere(x, y, y[a := PutWord(y[a], j, b)], i, o, s, n, a);
    }
  }

  // Only inode n has its entries in block a.
  lemma EntryElsewhere(x: Blocks, y: Blocks, z: Blocks, i: Inodes, o: Owners, s: Slot, n: nat, a: nat)
    requires s.Via? && n in i && |i[n].addrs| == NDIRECT + 1 && i[n].addrs[NDIRECT] == a && a != 0 && a in o
    requires o[a] == Indirect(n)
    requires forall t: Slot :: Ref(x, i, t) != 0 ==> Ref(x, i, t) in o && o[Ref(x, i, t)] == t
    requires |z| == |y| && forall c: nat :: c < |y| && c != a ==> z[c] == y[c]
    ensures s.n != n ==> Ref(z, i, s) == Ref(y, i, s)
  {
    assert Ref(x, i, Indirect(s.n)) == a ==> o[a] == Indirect(s.n);
  }

  // The bitmap is not in block a.
  lemma UsedElsewhere(g: Layout, y: Blocks, z: Blocks, a: nat)
    requires WellFormed(g, y) && |z| == |y| && g.datastart <= a && forall c: nat :: c < |y| && c != a ==> z[c] == y[c]
    ensures forall c: nat :: c < g.size ==> Used(g, z, c) == Used(g, y, c)
  {
    forall c: nat | c < g.size ensures Used(g, z, c) == Used(g, y, c) {
      BBlockIn(g, c);
    }
  }

  // ---------------------------------------------------------------- giving a block back

  // Slot t, which referred to b, is empty and b is free; no other slot changed.
  ghost predicate Gave(g: Layout, x: Blocks, i: Inodes, y: Blocks, i': Inodes, t: Slot, b: nat) {
    && WellFormed(g, y) && b < g.size && |x| == |y|
    && (forall n :: n in i' ==> |i'[n].addrs| == NDIRECT + 1)
    && (forall c: nat :: c < g.size ==> Used(g, y, c) == (c != b && Used(g, x, c)))
    && (forall s: Slot :: Ref(y, i', s) == if s == t then 0 else Ref(x, i, s))
    && Ref(x, i, t) == b
  }

  lemma GaveOk(g: Layout, x: Blocks, i: Inodes, y: Blocks, i': Inodes, o: Owners, t: Slot, b: nat)
    requires FsOk(g, x, i, o) && Gave(g, x, i, y, i', t, b) && b in o
    ensures FsOk(g, y, i', o - {b}) && o[b] == t
  {
    hide Ref, Used;
    var o' := o - {b};
    assert b != 0;
    forall c | c in o' ensures g.datastart <= c < g.size && Ref(y, i', o'[c]) == c {
      assert Ref(x, i, o[c]) == c;
    }
    forall s: Slot | Ref(y, i', s) != 0 ensures Ref(y, i', s) in o' && o'[Ref(y, i', s)] == s {
      assert Ref(y, i', s) == if s == t then 0 else Ref(x, i, s);
    }
  }

  // bfree(ip->addrs[k]); ip->addrs[k] = 0, an indirect block being empty by then
  lemma DetachAddr(g: Layout, x: Blocks, y: Blocks, i: Inodes, o: Owners, n: nat, k: nat, b: nat)
    requires FsOk(g, x, i, o) && n in i && k <= NDIRECT && i[n].addrs[k] == b && b != 0
    requires Turned(g, x, y, b, false)
    requires k == NDIRECT ==> forall j: nat :: Ref(x, i, Via(n, j)) == 0
    ensures b in o && b < g.size && Gave(g, x, i, y, SetAddr(i, n, k, 0), AddrSlot(n, k), b)
  {
    assert Ref(x, i, AddrSlot(n, k)) == b;
    forall s: Slot ensures Ref(y, SetAddr(i, n, k, 0), s) == if s == AddrSlot(n, k) then 0 else Ref(x, i, s) {
      DetachAddrRef(g, x, y, i, o, n, k, b, s);
    }
  }

  lemma DetachAddrRef(g: Layout, x: Blocks, y: Blocks, i: Inodes, o: Owners, n: nat, k: nat, b: nat, s: Slot)
    requires FsOk(g, x, i, o) && n in i && k <= NDIRECT && i[n].addrs[k] == b && b != 0
    requires Turned(g, x, y, b, false) && Ref(x, i, AddrSlot(n, k)) == b
    requires k == NDIRECT ==> forall j: nat :: Ref(x, i, Via(n, j)) == 0
    ensures Ref(y, SetAddr(i, n, k, 0), s) == if s == AddrSlot(n, k) then 0 else Ref(x, i, s)
  {
    hide Used, Word;
    if s.Via? && Ref(x, i, Indirect(s.n)) != 0 {
      assert Ref(x, i, Indirect(s.n)) in o && o[Ref(x, i, Indirect(s.n))] == Indirect(s.n);
    }
  }

  // bfree of a data block that is no indirect block changes no slot.
  lemma TurnedRef(g: Layout, x: Blocks, y: Blocks, i: Inodes, o: Owners, b: nat, s: Slot)
    requires FsOk(g, x, i, o) && Turned(g, x, y, b, false) && b in o && !o[b].Indirect?
    ensures Ref(y, i, s) == Ref(x, i, s)
  {
    hide Used, Word;
    if s.Via? && Ref(x, i, Indirect(s.n)) != 0 {
      assert Ref(x, i, Indirect(s.n)) in o && o[Ref(x, i, Indirect(s.n))] == Indirect(s.n);
    }
  }

  // bfree(a[j]), the entry counting as empty from then on
  lemma DetachVia(g: Layout, x: Blocks, y: Blocks, i: Inodes, o: Owners, n: nat, j: nat, b: nat)
    requires FsOk(g, x, i, o) && n in i && j < NINDIRECT && i[n].addrs[NDIRECT] != 0
    requires Ref(x, i, Via(n, j)) == b && b != 0 && Turned(g, x, y, b, false)
    ensures var a := i[n].addrs[NDIRECT];
            && a in o && b in o && a != b && a < |y| && IsBlock(y[a]) && y[a] == x[a]
            && Gave(g, x, i, y[a := PutWord(y[a], j, 0)], i, Via(n, j), b)
  {
    var a := i[n].addrs[NDIRECT];
    assert Ref(x, i, Indirect(n)) == a && a in o && o[a] == Indirect(n);
    var z := y[a := PutWord(y[a], j, 0)];
    WordPut(y[a], j, 0, j);
    forall s: Slot ensures Ref(z, i, s) == if s == Via(n, j) then 0 else Ref(x, i, s) {
      TurnedRef(g, x, y, i, o, b, s);
      PutVia(x, y, i, o, n, j, 0, a, s);
    }
    UsedElsewhere(g, y, z, a);
  }

  // ---------------------------------------------------------------- writing a data block

  function Splice(b: Block, at: nat, src: seq<nat>): (c: Block)
    requires at + |src| <= |b|
    ensures |c| == |b| && forall k :: 0 <= k < |b| ==> c[k] == if at <= k < at + |src| then src[k - at] else b[k]
  {
    b[..at] + src + b[at + |src|..]
  }

  ghost predicate BytesBut(x: Blocks, y: Blocks, i: Inodes, n: nat, bn: nat, c: Block) {
    && |c| == BSIZE
    && forall m: nat, off: nat :: ByteAt(y, i, m, off) ==
         if m == n && off / BSIZE == bn then c[off % BSIZE] else ByteAt(x, i, m, off)
  }

  // Block bn of file n gets new contents c: the slots stay, and no byte of any
  // other block of any file changes.
  lemma WriteBlock(g: Layout, x: Blocks, i: Inodes, o: Owners, n: nat, bn: nat, c: Block)
    requires FsOk(g, x, i, o) && Ref(x, i, SlotOf(n, bn)) != 0 && IsBlock(c)
    ensures var a := Ref(x, i, SlotOf(n, bn));
            && a < |x| && IsBlock(x[a]) && FsOk(g, x[a := c], i, o)
            && (forall s: Slot :: Ref(x[a := c], i, s) == Ref(x, i, s))
            && BytesBut(x, x[a := c], i, n, bn, c)
  {
    var a := Ref(x, i, SlotOf(n, bn));
    var y := x[a := c];
    assert a in o && o[a] == SlotOf(n, bn);
    forall s: Slot ensures Ref(y, i, s) == Ref(x, i, s) {
      if s.Via? && Ref(x, i, Indirect(s.n)) != 0 {
        assert Ref(x, i, Indirect(s.n)) in o && o[Ref(x, i, Indirect(s.n))] == Indirect(s.n);
      }
    }
    UsedElsewhere(g, x, y, a);
    WrittenOk(g, x, y, i, o);
    forall m: nat, off: nat
      ensures ByteAt(y, i, m, off) == if m == n && off / BSIZE == bn then c[off % BSIZE] else ByteAt(x, i, m, off)
    {
      var s := SlotOf(m, off / BSIZE);
      assert Ref(y, i, s) == Ref(x, i, s);
      assert Ref(x, i, s) == a ==> s == SlotOf(n, bn);
    }
  }

  lemma WrittenOk(g: Layout, x: Blocks, y: Blocks, i: Inodes, o: Owners)
    requires FsOk(g, x, i, o) && WellFormed(g, y)
    requires forall s: Slot :: Ref(y, i, s) == Ref(x, i, s)
    requires forall c: nat :: c < g.size ==> Used(g, y, c) == Used(g, x, c)
    ensures FsOk(g, y, i, o)
  {
    hide Ref, Used;
    forall b | b in o ensures g.datastart <= b < g.size && Ref(y, i, o[b]) == b {
      assert Ref(x, i, o[b]) == b;
    }
    forall s: Slot | Ref(y, i, s) != 0 ensures Ref(y, i, s) in o && o[Ref(y, i, s)] == s {
      assert Ref(y, i, s) == Ref(x, i, s);
    }
  }

  // ---------------------------------------------------------------- the operations

  // No block is free.
  ghost predicate Full(g: Layout, blocks: Blocks) {
    forall c: nat :: c < g.size ==> Used(g, blocks, c)
  }

  class Fs {
    const g: Layout
    var blocks: Blocks
    var inodes: Inodes          // in memory
    var dinodes: Inodes         // in the inode blocks
    ghost var owner: Owners

    ghost predicate Ok()
      reads this
    {
      FsOk(g, blocks, inodes, owner)
    }

    // Inner loop of balloc: the first free block of b..b+BPB-1, or the end.
    method FirstFree(b: nat) returns (c: nat)
      requires WellFormed(g, blocks) && b % BPB == 0 && b < g.size
      ensures b <= c <= g.size && c <= b + BPB
      ensures forall k: nat :: b <= k < c ==> Used(g, blocks, k)
      ensures c < g.size && c < b + BPB ==> !Used(g, blocks, c)
    {
      BBlockIn(g, b);
      var bi := 0;
      while bi < BPB && b + bi < g.size
        invariant 0 <= bi <= BPB && b + bi <= g.size
        invariant forall k: nat :: b <= k < b + bi ==> Used(g, blocks, k)
      {
        SameMapBlock(b, bi);
        if BitOf(blocks[BBlock(g, b)][bi / 8], bi % 8) == 0 {
          return b + bi;
        }
        bi := bi + 1;
      }
      return b + bi;
    }

    // balloc: the first free block, marked in use and zeroed, or 0 if there is none.
    method Balloc() returns (b: nat)
      requires WellFormed(g, blocks) && forall k: nat :: k < g.datastart ==> Used(g, blocks, k)
      modifies this`blocks
      ensures b == 0 ==> Full(g, blocks) && blocks == old(blocks)
      ensures b != 0 ==> Allocated(g, old(blocks), blocks, b) && forall k: nat :: k < b ==> old(Used(g, blocks, k))
    {
      hide WellFormed, Used, Turned, IsMap, BBlock, Flip, Zeros, IsBlock;
      LayoutFacts(g, blocks);
      var c := 0;
      while c < g.size
        invariant c % BPB == 0 && blocks == old(blocks)
        invariant forall k: nat :: k < c && k < g.size ==> Used(g, blocks, k)
        decreases g.size + BPB - c
      {
        var f := FirstFree(c);
        if f < g.size && f < c + BPB {
          FlipTurns(g, blocks, f, true);
          ghost var x := blocks;
          blocks := Flip(g, blocks, f, true);
          ghost var y := blocks;
          ZeroBlock(g, x, y, f);
          blocks := blocks[f := Zeros()];
          return f;
        }
        c := c + BPB;
      }
      return 0;
    }

    // bfree. The panic demands that the block is in use.
    method Bfree(b: nat)
      requires WellFormed(g, blocks) && b < g.size && Used(g, blocks, b)
      modifies this`blocks
      ensures Turned(g, old(blocks), blocks, b, false)
    {
      FlipTurns(g, blocks, b, false);
      blocks := Flip(g, blocks, b, false);
    }

    // The part of bmap for ip->addrs[k]: its block, allocated if there is none.
    method AllocAddr(n: nat, k: nat, ghost bn: nat) returns (addr: nat)
      requires Ok() && n in inodes && k <= NDIRECT && (AddrSlot(n, k) == SlotOf(n, bn) || k == NDIRECT)
      modifies this`blocks, this`inodes, this`owner
      ensures Ok() && Extended(old(blocks), old(inodes), blocks, inodes, n, bn)
      ensures n in inodes && |inodes[n].addrs| == NDIRECT + 1 && addr == inodes[n].addrs[k]
      ensures addr == 0 ==> Full(g, blocks)
      ensures old(Ref(blocks, inodes, AddrSlot(n, k))) != 0 ==>
        blocks == old(blocks) && inodes == old(inodes) && owner == old(owner)
    {
      hide FsOk, Ref, Took, Allocated, Full, Extended, Used;
      OkFacts(g, blocks, inodes, owner, n);
      AddrRef(blocks, inodes, n, k);
      ExtendedNothing(blocks, inodes, n, bn);
      addr := inodes[n].addrs[k];
      if addr == 0 {
        ghost var x := blocks;
        addr := Balloc();
        if addr == 0 {
          return 0;
        }
        AttachAddr(g, x, blocks, inodes, owner, n, k, addr);
        TookOk(g, x, inodes, blocks, SetAddr(inodes, n, k, addr), owner, AddrSlot(n, k), addr);
        TookBytes(g, x, inodes, blocks, SetAddr(inodes, n, k, addr), owner, AddrSlot(n, k), addr);
        TookExtends(g, x, inodes, blocks, SetAddr(inodes, n, k, addr), owner, AddrSlot(n, k), addr, n, bn);
        owner := owner[addr := AddrSlot(n, k)];
        inodes := SetAddr(inodes, n, k, addr);
      }
    }

    // The part of bmap for entry j of the indirect block.
    method AllocVia(n: nat, j: nat) returns (addr: nat)
      requires Ok() && n in inodes && j < NINDIRECT && Ref(blocks, inodes, Indirect(n)) != 0
      modifies this`blocks, this`owner
      ensures Ok() && Extended(old(blocks), inodes, blocks, inodes, n, NDIRECT + j)
      ensures addr == Ref(blocks, inodes, Via(n, j))
      ensures addr == 0 ==> Full(g, blocks)
      ensures old(Ref(blocks, inodes, Via(n, j))) != 0 ==> blocks == old(blocks) && owner == old(owner)
    {
      hide FsOk, Took, Allocated, Full, Extended, Used, Word, PutWord;
      OkFacts(g, blocks, inodes, owner, n);
      ExtendedNothing(blocks, inodes, n, NDIRECT + j);
      var a := inodes[n].addrs[NDIRECT];
      IndirectBlock(g, blocks, inodes, owner, n);
      addr := Word(blocks[a], j);
      if addr == 0 {
        ghost var x := blocks;
        addr := Balloc();
        if addr != 0 {
          AttachVia(g, x, blocks, inodes, owner, n, j, addr);
          ghost var y := blocks[a := PutWord(blocks[a], j, addr)];
          TookOk(g, x, inodes, y, inodes, owner, Via(n, j), addr);
          TookBytes(g, x, inodes, y, inodes, owner, Via(n, j), addr);
          TookExtends(g, x, inodes, y, inodes, owner, Via(n, j), addr, n, NDIRECT + j);
          blocks := blocks[a := PutWord(blocks[a], j, addr)];
          owner := owner[addr := Via(n, j)];
        }
      }
    }

    // bmap: the block of the bn-th piece of file n, allocated if there is none,
    // or 0 if the disk is full. No byte of any file changes.
    method Bmap(n: nat, bn: nat) returns (addr: nat)
      requires Ok() && n in inodes && bn < MAXFILE
      modifies this`blocks, this`inodes, this`owner
      ensures Ok() && Extended(old(blocks), old(inodes), blocks, inodes, n, bn)
      ensures addr == Ref(blocks, inodes, SlotOf(n, bn))
      ensures addr == 0 ==> Full(g, blocks)
      ensures old(Ref(blocks, inodes, SlotOf(n, bn))) != 0 ==>
        blocks == old(blocks) && inodes == old(inodes) && owner == old(owner)
    {
      hide FsOk, Full, Extended;
      OkFacts(g, blocks, inodes, owner, n);
      if bn < NDIRECT {
        addr := AllocAddr(n, bn, bn);
        return;
      }
      var a := AllocAddr(n, NDIRECT, bn);
      if a == 0 {
        return 0;
      }
      ghost var x, i := blocks, inodes;
      addr := AllocVia(n, bn - NDIRECT);
      ExtendedTwice(old(blocks), old(inodes), x, i, blocks, inodes, n, bn);
    }

    // iupdate
    method IUpdate(n: nat)
      requires n in inodes
      modifies this`dinodes
      ensures dinodes == old(dinodes)[n := inodes[n]]
    {
      dinodes := dinodes[n := inodes[n]];
    }

    // itrunc, the direct blocks
    method TruncDirect(n: nat)
      requires Ok() && n in inodes
      modifies this`blocks, this`inodes, this`owner
      ensures Ok() && Trunc(old(blocks), old(inodes), old(owner), blocks, inodes, owner, n, NDIRECT, 0, false)
    {
      hide FsOk, Ref, Trunc, Gave, Turned, Used, WellFormed;
      TruncNothing(blocks, inodes, owner, n);
      for k: nat := 0 to NDIRECT
        invariant Ok() && n in inodes
        invariant Trunc(old(blocks), old(inodes), old(owner), blocks, inodes, owner, n, k, 0, false)
      {
        OkFacts(g, blocks, inodes, owner, n);
        AddrRef(blocks, inodes, n, k);
        ghost var x, i, o := blocks, inodes, owner;
        var b := inodes[n].addrs[k];
        if b != 0 {
          InUse(g, x, i, o, AddrSlot(n, k));
          Bfree(b);
          DetachAddr(g, x, blocks, i, o, n, k, b);
          GaveOk(g, x, i, blocks, SetAddr(i, n, k, 0), o, AddrSlot(n, k), b);
          inodes := SetAddr(inodes, n, k, 0);
          owner := owner - {b};
          DataKept(g, x, i, blocks, o, b);
          TruncMore(g, old(blocks), old(inodes), old(owner), x, i, o, blocks, inodes, n, k, 0, false, AddrSlot(n, k), b,
                    k + 1, 0, false);
        } else {
          TruncSkip(g, old(blocks), old(inodes), old(owner), x, i, o, n, k, 0, false, AddrSlot(n, k), k + 1, 0, false);
        }
        TruncKey(old(blocks), old(inodes), old(owner), blocks, inodes, owner, n, k + 1, 0, false);
      }
    }

    // itrunc, the blocks behind the indirect block a. The entries are not
    // cleared; eff is what the blocks are worth when they count as empty.
    method TruncVia(n: nat, a: nat) returns (ghost eff: Blocks)
      requires Ok() && n in inodes && |inodes[n].addrs| == NDIRECT + 1 && inodes[n].addrs[NDIRECT] == a && a != 0
      modifies this`blocks, this`owner
      ensures a < |blocks| && |eff| == |blocks| && blocks == eff[a := blocks[a]]
      ensures FsOk(g, eff, inodes, owner)
      ensures Trunc(old(blocks), inodes, old(owner), eff, inodes, owner, n, 0, NINDIRECT, false)
      ensures WellFormed(g, blocks)
    {
      hide FsOk, Trunc, Gave, Turned, Used, WellFormed, Word, PutWord, IsBlock, Ref;
      TruncNothing(blocks, inodes, owner, n);
      AddrRef(blocks, inodes, n, NDIRECT);
      IndirectBlock(g, blocks, inodes, owner, n);
      OkFacts(g, blocks, inodes, owner, n);
      BlockSize(blocks[a]);
      eff := blocks;
      ghost var data := blocks[a];
      WordsNothing(data);
      for j: nat := 0 to NINDIRECT
        invariant WellFormed(g, blocks) && FsOk(g, eff, inodes, owner)
        invariant a < |blocks| == |eff| && blocks == eff[a := data]
        invariant |data| == BSIZE && |eff[a]| == BSIZE && WordsFrom(eff[a], data, j)
        invariant Trunc(old(blocks), inodes, old(owner), eff, inodes, owner, n, 0, j, false)
      {
        ViaRef(eff, inodes, n, j);
        WordAt(eff[a], data, j);
        EffFacts(g, eff, inodes, owner);
        ghost var o := owner;
        var b := Word(blocks[a], j);
        if b != 0 {
          InUse(g, eff, inodes, o, Via(n, j));
          AddrRef(eff, inodes, n, NDIRECT);
          InUse(g, eff, inodes, o, Indirect(n));
          SameBitmap(g, eff, blocks, a);
          ghost var x := blocks;
          Bfree(b);
          TurnedEff(g, eff, x, blocks, a, b);
          TurnedFacts(g, x, blocks, b);
          ghost var z := blocks[a := eff[a]];
          DetachVia(g, eff, z, inodes, o, n, j, b);
          ghost var y := z[a := PutWord(eff[a], j, 0)];
          GaveOk(g, eff, inodes, y, inodes, o, Via(n, j), b);
          owner := owner - {b};
          DataKept(g, eff, inodes, z, o, b);
          TruncMore(g, old(blocks), inodes, old(owner), eff, inodes, o, y, inodes, n, 0, j, false, Via(n, j), b, 0,
                    j + 1, false);
          WordsMore(eff[a], data, j);
          eff := y;
          assert blocks == eff[a := data];
        } else {
          TruncSkip(g, old(blocks), inodes, old(owner), eff, inodes, o, n, 0, j, false, Via(n, j), 0, j + 1, false);
          WordsSkip(eff[a], data, j);
        }
      }
    }

    // itrunc: the file is empty, its blocks are free, and nothing else changed.
    method ITrunc(n: nat)
      requires Ok() && n in inodes
      modifies this
      ensures Ok() && inodes.Keys == old(inodes).Keys && Content(blocks, inodes, n) == []
      ensures dinodes == old(dinodes)[n := inodes[n]]
      ensures forall s: Slot :: s.n == n ==> Ref(blocks, inodes, s) == 0
      ensures forall b :: b in owner <==> b in old(owner) && old(owner)[b].n != n
      ensures forall m :: m in inodes && m != n ==> Content(blocks, inodes, m) == old(Content(blocks, inodes, m))
      ensures forall m :: m in inodes && old(HoleFree(blocks, inodes, m)) ==> HoleFree(blocks, inodes, m)
    {
      hide FsOk, Ref, Trunc, Gave, Turned, Used, WellFormed, Content, Full, Emptied, SameSlots, HoleFree;
      ghost var x0, i0, o0 := blocks, inodes, owner;
      TruncDirect(n);
      ghost var x1, i1, o1 := blocks, inodes, owner;
      TruncKey(x0, i0, o0, x1, i1, o1, n, NDIRECT, 0, false);
      OkFacts(g, blocks, inodes, owner, n);
      AddrRef(blocks, inodes, n, NDIRECT);
      var a := inodes[n].addrs[NDIRECT];
      if a != 0 {
        ghost var eff := TruncVia(n, a);
        ghost var o2 := owner;
        NoVia(x1, i1, o1, eff, i1, o2, n);
        AddrRef(eff, inodes, n, NDIRECT);
        InUse(g, eff, inodes, o2, Indirect(n));
        EffFacts(g, eff, inodes, o2);
        SameBitmap(g, eff, blocks, a);
        ghost var x2 := blocks;
        Bfree(a);
        TurnedOwn(g, eff, x2, blocks, a);
        DetachAddr(g, eff, blocks, inodes, o2, n, NDIRECT, a);
        GaveOk(g, eff, inodes, blocks, SetAddr(inodes, n, NDIRECT, 0), o2, Indirect(n), a);
        inodes := SetAddr(inodes, n, NDIRECT, 0);
        owner := owner - {a};
        DataKept(g, eff, i1, blocks, o2, a);
        TruncMore(g, x1, i1, o1, eff, i1, o2, blocks, inodes, n, 0, NINDIRECT, false, Indirect(n), a, 0, NINDIRECT,
                  true);
      } else {
        NothingBehind(g, x1, i1, o1, n);
      }
      AllGone(g, x0, i0, o0, x1, i1, o1, blocks, inodes, owner, n);
      ghost var i2 := inodes;
      inodes := inodes[n := inodes[n].(size := 0)];
      SizeOk(g, blocks, i2, inodes, owner, n);
      TruncContent(g, x0, i0, o0, blocks, i2, owner, inodes, n);
      TruncHoles(x0, i0, o0, blocks, i2, owner, inodes, n);
      IUpdate(n);
    }

    // The loop of writei.
    method WriteBytes(n: nat, src: seq<nat>, off0: nat) returns (tot: nat)
      requires Ok() && n in inodes && off0 + |src| <= MAXFILE * BSIZE && forall k :: 0 <= k < |src| ==> src[k] < 256
      modifies this`blocks, this`inodes, this`owner
      ensures Ok() && tot <= |src| && Wrote(old(blocks), old(inodes), blocks, inodes, n, off0, src[..tot])
      ensures tot < |src| ==> Full(g, blocks)
    {
      hide FsOk, Wrote, Extended, Ref, Full, IsBlock, Splice;
      tot := 0;
      var off := off0;
      ghost var x0, i0 := blocks, inodes;
      WroteNothing(x0, i0, n, off0);
      while tot < |src|
        invariant Ok() && tot <= |src| && off == off0 + tot && n in inodes
        invariant Wrote(x0, i0, blocks, inodes, n, off0, src[..tot])
      {
        ghost var x, i := blocks, inodes;
        var addr := Bmap(n, off / BSIZE);
        ExtendedWrote(x0, i0, x, i, blocks, inodes, n, off / BSIZE, off0, src[..tot]);
        WroteKeys(x0, i0, blocks, inodes, n, off0, src[..tot]);
        if addr == 0 {
          return;
        }
        RefBlock(g, blocks, inodes, owner, SlotOf(n, off / BSIZE));
        BlockSize(blocks[addr]);
        var m := if |src| - tot < BSIZE - off % BSIZE then |src| - tot else BSIZE - off % BSIZE;
        var e := src[tot..tot + m];
        WriteRound(g, x0, i0, blocks, inodes, owner, n, off0, src[..tot], e, off, addr);
        assert src[..tot] + e == src[..tot + m];
        blocks := blocks[addr := Splice(blocks[addr], off % BSIZE, e)];
        tot := tot + m;
        off := off + m;
      }
    }

    // writei from kernel space: off + n wraps at 32 bits.
    method WriteI(n: nat, src: seq<nat>, off: nat) returns (ret: int)
      requires Ok() && n in inodes && off < UINT && |src| < UINT && forall k :: 0 <= k < |src| ==> src[k] < 256
      modifies this
      ensures Ok() && inodes.Keys == old(inodes).Keys
      ensures ret == -1 <==> off > old(inodes)[n].size || off + |src| >= UINT || off + |src| > MAXFILE * BSIZE
      ensures ret == -1 ==>
        blocks == old(blocks) && inodes == old(inodes) && dinodes == old(dinodes) && owner == old(owner)
      ensures ret != -1 ==> 0 <= ret <= |src| && dinodes == old(dinodes)[n := inodes[n]]
      ensures ret != -1 ==> Content(blocks, inodes, n) == Overlay(old(Content(blocks, inodes, n)), off, src[..ret])
      ensures 0 <= ret < |src| ==> Full(g, blocks)
      ensures forall m :: m in inodes && m != n ==> Content(blocks, inodes, m) == old(Content(blocks, inodes, m))
      ensures forall m :: m in inodes && old(HoleFree(blocks, inodes, m)) ==> HoleFree(blocks, inodes, m)
    {
      hide FsOk, Wrote, Ref, Full, Content, Overlay, HoleFree, ByteAt;
      if off > inodes[n].size || (off + |src|) % UINT < off {
        return -1;
      }
      if off + |src| > MAXFILE * BSIZE {
        return -1;
      }
      ghost var x0, i0 := blocks, inodes;
      var tot := WriteBytes(n, src, off);
      ghost var i1 := inodes;
      WroteKeys(x0, i0, blocks, i1, n, off, src[..tot]);
      if off + tot > inodes[n].size {
        inodes := inodes[n := inodes[n].(size := off + tot)];
      }
      SizeOk(g, blocks, i1, inodes, owner, n);
      WroteContent(x0, i0, blocks, i1, inodes, n, off, src[..tot]);
      IUpdate(n);
      return tot;
    }

    // readi into kernel space: the bytes of the clipped range, in order. A hole
    // is filled with a zero block first, so only a full disk can cut it short;
    // without holes nothing changes at all.
    method ReadI(n: nat, off0: nat, cnt: nat) returns (dst: seq<nat>)
      requires Ok() && n in inodes && off0 < UINT && cnt < UINT && inodes[n].size <= MAXFILE * BSIZE
      modifies this`blocks, this`inodes, this`owner
      ensures Ok() && inodes.Keys == old(inodes).Keys
      ensures forall m :: m in inodes ==> Content(blocks, inodes, m) == old(Content(blocks, inodes, m))
      ensures var c := old(Content(blocks, inodes, n));
              && |dst| <= Clipped(|c|, off0, cnt)
              && (|dst| > 0 ==> dst == c[off0..off0 + |dst|])
              && (|dst| < Clipped(|c|, off0, cnt) ==> Full(g, blocks))
      ensures old(HoleFree(blocks, inodes, n)) ==>
        && blocks == old(blocks) && inodes == old(inodes) && owner == old(owner)
        && |dst| == Clipped(old(inodes)[n].size, off0, cnt)
      ensures forall m :: m in inodes && old(HoleFree(blocks, inodes, m)) ==> HoleFree(blocks, inodes, m)
    {
      hide FsOk, Ref, Full, Content, HoleFree, ByteAt, IsBlock, SameBytes;
      dst := [];
      ghost var x0, i0 := blocks, inodes;
      ReadNothing(x0, i0);
      SameContents(x0, i0, blocks, inodes);
      if off0 > inodes[n].size || (off0 + cnt) % UINT < off0 {
        return;
      }
      var count := if off0 + cnt > inodes[n].size then inodes[n].size - off0 else cnt;
      var off := off0;
      while |dst| < count
        invariant Ok() && n in inodes && |dst| <= count && off == off0 + |dst|
        invariant SameBytes(x0, i0, blocks, inodes) && inodes.Keys == i0.Keys
        invariant forall m :: m in i0 ==> inodes[m].size == i0[m].size
        invariant forall k: nat :: k < |dst| ==> dst[k] == ByteAt(x0, i0, n, off0 + k)
        invariant HoleFree(x0, i0, n) ==> blocks == x0 && inodes == i0 && owner == old(owner)
        invariant forall m :: m in i0 && HoleFree(x0, i0, m) ==> HoleFree(blocks, inodes, m)
      {
        ghost var x, i := blocks, inodes;
        var addr := Bmap(n, off / BSIZE);
        SameBytesTwice(x0, i0, x, i, blocks, inodes);
        ExtendedHoles(x, i, blocks, inodes, n, off / BSIZE);
        if HoleFree(x0, i0, n) { BlockThere(x0, i0, n, off); }
        if addr == 0 {
          SameContents(x0, i0, blocks, inodes);
          ReadSlice(x0, i0, n, off0, dst);
          return;
        }
        RefBlock(g, blocks, inodes, owner, SlotOf(n, off / BSIZE));
        BlockSize(blocks[addr]);
        var m := if count - |dst| < BSIZE - off % BSIZE then count - |dst| else BSIZE - off % BSIZE;
        var e := blocks[addr][off % BSIZE..off % BSIZE + m];
        ReadRound(x0, i0, blocks, inodes, n, off0, dst, e, off, addr);
        dst := dst + e;
        off := off + m;
      }
      SameContents(x0, i0, blocks, inodes);
      ReadSlice(x0, i0, n, off0, dst);
    }
  }

  // ---------------------------------------------------------------- truncation

  // The slots of file n that are given up: the first d direct ones, the first v
  // entries of the indirect block, and the indirect block itself.
  predicate Dropped(s: Slot, n: nat, d: nat, v: nat, ind: bool) {
    s.n == n && match s case Direct(_, i) => i < d case Via(_, j) => j < v case Indirect(_) => ind
  }

  // Exactly those slots are empty and their blocks without owner.
  ghost predicate Trunc(x0: Blocks, i0: Inodes, o0: Owners, x: Blocks, i: Inodes, o: Owners, n: nat, d: nat, v: nat,
                        ind: bool) {
    && |x| == |x0| && i.Keys == i0.Keys && (forall m :: m in i0 ==> i[m].size == i0[m].size)
    && (forall s: Slot :: Ref(x, i, s) == if Dropped(s, n, d, v, ind) then 0 else Ref(x0, i0, s))
    && (forall b :: b in o <==> b in o0 && !Dropped(o0[b], n, d, v, ind))
    && (forall b :: b in o && b in o0 ==> o[b] == o0[b])
    && (forall b :: b in o && !o[b].Indirect? && b < |x| ==> x[b] == x0[b])
  }

  lemma TruncNothing(x: Blocks, i: Inodes, o: Owners, n: nat)
    ensures Trunc(x, i, o, x, i, o, n, 0, 0, false)
  {
  }

  lemma TruncKey(x0: Blocks, i0: Inodes, o0: Owners, x: Blocks, i: Inodes, o: Owners, n: nat, d: nat, v: nat, ind: bool)
    requires Trunc(x0, i0, o0, x, i, o, n, d, v, ind) && n in i0
    ensures n in i && i.Keys == i0.Keys
  {
  }

  lemma InUse(g: Layout, x: Blocks, i: Inodes, o: Owners, s: Slot)
    requires FsOk(g, x, i, o) && Ref(x, i, s) != 0
    ensures var b := Ref(x, i, s); b in o && o[b] == s && b < g.size && Used(g, x, b) && g.datastart <= b
  {
  }

  // The data blocks other than b are untouched by bfree(b).
  lemma DataKept(g: Layout, x: Blocks, i: Inodes, y: Blocks, o: Owners, b: nat)
    requires FsOk(g, x, i, o) && Turned(g, x, y, b, false)
    ensures |x| == |y| && forall c :: c in o && c != b && c < |x| ==> y[c] == x[c]
  {
  }

  // Slot t is given up next.
  predicate NextDropped(t: Slot, n: nat, d: nat, v: nat, ind: bool, d': nat, v': nat, ind': bool) {
    || (t == Direct(n, d) && d' == d + 1 && v' == v && ind' == ind)
    || (t == Via(n, v) && d' == d && v' == v + 1 && ind' == ind)
    || (t == Indirect(n) && d' == d && v' == v && ind' && !ind)
  }

  lemma TruncMore(g: Layout, x0: Blocks, i0: Inodes, o0: Owners, x: Blocks, i: Inodes, o: Owners, y: Blocks, i': Inodes,
                  n: nat, d: nat, v: nat, ind: bool, t: Slot, b: nat, d': nat, v': nat, ind': bool)
    requires Trunc(x0, i0, o0, x, i, o, n, d, v, ind) && NextDropped(t, n, d, v, ind, d', v', ind')
    requires Gave(g, x, i, y, i', t, b) && b in o && o[b] == t && FsOk(g, x, i, o)
    requires i'.Keys == i.Keys && forall m :: m in i ==> i'[m].size == i[m].size
    requires forall c :: c in o && c != b && !o[c].Indirect? && c < |x| ==> y[c] == x[c]
    ensures Trunc(x0, i0, o0, y, i', o - {b}, n, d', v', ind')
  {
    hide Ref, Used;
    forall s: Slot ensures Ref(y, i', s) == if Dropped(s, n, d', v', ind') then 0 else Ref(x0, i0, s) {
      assert Ref(x, i, s) == if Dropped(s, n, d, v, ind) then 0 else Ref(x0, i0, s);
    }
    forall c ensures c in o - {b} <==> c in o0 && !Dropped(o0[c], n, d', v', ind') {
      if c in o {
        assert Ref(x, i, o[c]) == c;
      }
    }
  }

  lemma TruncSkip(g: Layout, x0: Blocks, i0: Inodes, o0: Owners, x: Blocks, i: Inodes, o: Owners,
                  n: nat, d: nat, v: nat, ind: bool, t: Slot, d': nat, v': nat, ind': bool)
    requires Trunc(x0, i0, o0, x, i, o, n, d, v, ind) && NextDropped(t, n, d, v, ind, d', v', ind')
    requires FsOk(g, x, i, o) && Ref(x, i, t) == 0
    ensures Trunc(x0, i0, o0, x, i, o, n, d', v', ind')
  {
    hide Ref, Used;
    forall s: Slot ensures Ref(x, i, s) == if Dropped(s, n, d', v', ind') then 0 else Ref(x0, i0, s) {
      assert Ref(x, i, s) == if Dropped(s, n, d, v, ind) then 0 else Ref(x0, i0, s);
    }
    forall c ensures c in o <==> c in o0 && !Dropped(o0[c], n, d', v', ind') {
      if c in o {
        assert Ref(x, i, o[c]) == c;
      }
    }
  }

  // ---- the indirect block while its entries count as empty one by one

  ghost predicate WordsFrom(e: Block, data: Block, j: nat) {
    && |e| == BSIZE && |data| == BSIZE && IsBlock(e)
    && forall k: nat :: k < NINDIRECT ==> Word(e, k) == if k < j then 0 else Word(data, k)
  }

  lemma WordsNothing(data: Block)
    requires IsBlock(data)
    ensures WordsFrom(data, data, 0)
  {
  }

  lemma WordsMore(e: Block, data: Block, j: nat)
    requires WordsFrom(e, data, j) && j < NINDIRECT
    ensures WordsFrom(PutWord(e, j, 0), data, j + 1)
  {
    hide Word, PutWord;
    WordPut(e, j, 0, j);
    forall k: nat | k < NINDIRECT ensures Word(PutWord(e, j, 0), k) == if k < j + 1 then 0 else Word(data, k) {
      WordPut(e, j, 0, k);
    }
  }

  lemma WordsSkip(e: Block, data: Block, j: nat)
    requires WordsFrom(e, data, j) && j < NINDIRECT && Word(data, j) == 0
    ensures WordsFrom(e, data, j + 1)
  {
    hide Word;
  }

  lemma WordAt(e: Block, data: Block, j: nat)
    requires WordsFrom(e, data, j) && j < NINDIRECT
    ensures Word(e, j) == Word(data, j)
  {
    hide Word;
  }

  lemma ViaRef(x: Blocks, i: Inodes, n: nat, j: nat)
    requires n in i && |i[n].addrs| == NDIRECT + 1 && j < NINDIRECT
    requires 0 < i[n].addrs[NDIRECT] < |x| && |x[i[n].addrs[NDIRECT]]| == BSIZE
    ensures Ref(x, i, Via(n, j)) == Word(x[i[n].addrs[NDIRECT]], j)
  {
  }

  // A data block a does not matter to the bitmap.
  lemma SameBitmap(g: Layout, eff: Blocks, x: Blocks, a: nat)
    requires WellFormed(g, x) && a < |x| == |eff| && x == eff[a := x[a]] && g.datastart <= a
    ensures forall c: nat :: c < g.size ==> Used(g, x, c) == Used(g, eff, c)
  {
    UsedElsewhere(g, x, eff, a);
  }

  lemma TurnedEff(g: Layout, eff: Blocks, x: Blocks, y: Blocks, a: nat, b: nat)
    requires WellFormed(g, x) && WellFormed(g, eff) && a < |x| == |eff| && x == eff[a := x[a]] && g.datastart <= a
    requires a != b
    requires Turned(g, x, y, b, false)
    ensures a < |y| && y[a] == x[a] && Turned(g, eff, y[a := eff[a]], b, false)
  {
    SameBitmap(g, eff, x, a);
    UsedElsewhere(g, y, y[a := eff[a]], a);
  }

  lemma TurnedOwn(g: Layout, eff: Blocks, x: Blocks, y: Blocks, a: nat)
    requires WellFormed(g, x) && a < |x| == |eff| && x == eff[a := x[a]] && g.datastart <= a
    requires Turned(g, x, y, a, false)
    ensures Turned(g, eff, y, a, false)
  {
    SameBitmap(g, eff, x, a);
  }

  lemma EffFacts(g: Layout, x: Blocks, i: Inodes, o: Owners)
    requires FsOk(g, x, i, o)
    ensures WellFormed(g, x) && |x| == g.size
  {
  }

  lemma TurnedFacts(g: Layout, x: Blocks, y: Blocks, b: nat)
    requires Turned(g, x, y, b, false)
    ensures WellFormed(g, y) && |x| == |y|
  {
  }

  lemma NoVia(x0: Blocks, i0: Inodes, o0: Owners, x: Blocks, i: Inodes, o: Owners, n: nat)
    requires Trunc(x0, i0, o0, x, i, o, n, 0, NINDIRECT, false)
    ensures forall j: nat :: Ref(x, i, Via(n, j)) == 0
    ensures Ref(x, i, Indirect(n)) == Ref(x0, i0, Indirect(n))
  {
    forall j: nat ensures Ref(x, i, Via(n, j)) == 0 {
      assert Ref(x, i, Via(n, j)) == if Dropped(Via(n, j), n, 0, NINDIRECT, false) then 0 else Ref(x0, i0, Via(n, j));
    }
  }

  // Without an indirect block there is nothing behind it.
  lemma NothingBehind(g: Layout, x: Blocks, i: Inodes, o: Owners, n: nat)
    requires FsOk(g, x, i, o) && Ref(x, i, Indirect(n)) == 0
    ensures Trunc(x, i, o, x, i, o, n, 0, NINDIRECT, true)
  {
    forall s: Slot ensures Ref(x, i, s) == if Dropped(s, n, 0, NINDIRECT, true) then 0 else Ref(x, i, s) {
    }
    forall c | c in o ensures !Dropped(o[c], n, 0, NINDIRECT, true) {
      assert Ref(x, i, o[c]) == c;
    }
  }

  ghost predicate Emptied(x0: Blocks, i0: Inodes, o0: Owners, x: Blocks, i: Inodes, o: Owners, n: nat) {
    && |x| == |x0| && i.Keys == i0.Keys && (forall m :: m in i0 ==> i[m].size == i0[m].size)
    && (forall s: Slot :: Ref(x, i, s) == if s.n == n then 0 else Ref(x0, i0, s))
    && (forall b :: b in o <==> b in o0 && o0[b].n != n)
    && (forall b :: b in o && !o[b].Indirect? && b < |x| ==> x[b] == x0[b])
    && (forall b :: b in o && b in o0 ==> o[b] == o0[b])
  }

  lemma GoneRef(x0: Blocks, i0: Inodes, o0: Owners, x1: Blocks, i1: Inodes, o1: Owners, x: Blocks, i: Inodes, o: Owners,
                n: nat, s: Slot)
    requires Trunc(x0, i0, o0, x1, i1, o1, n, NDIRECT, 0, false) && Trunc(x1, i1, o1, x, i, o, n, 0, NINDIRECT, true)
    ensures Ref(x, i, s) == if s.n == n then 0 else Ref(x0, i0, s)
  {
    assert Ref(x, i, s) == if Dropped(s, n, 0, NINDIRECT, true) then 0 else Ref(x1, i1, s);
    assert Ref(x1, i1, s) == if Dropped(s, n, NDIRECT, 0, false) then 0 else Ref(x0, i0, s);
  }

  // A slot that refers to something is one of the file's slots.
  lemma RealSlot(x: Blocks, i: Inodes, s: Slot)
    requires Ref(x, i, s) != 0
    ensures Dropped(s, s.n, NDIRECT, 0, false) || Dropped(s, s.n, 0, NINDIRECT, true)
  {
  }

  lemma AllGone(g: Layout, x0: Blocks, i0: Inodes, o0: Owners, x1: Blocks, i1: Inodes, o1: Owners, x: Blocks, i: Inodes,
                o: Owners, n: nat)
    requires FsOk(g, x0, i0, o0)
    requires Trunc(x0, i0, o0, x1, i1, o1, n, NDIRECT, 0, false) && Trunc(x1, i1, o1, x, i, o, n, 0, NINDIRECT, true)
    ensures Emptied(x0, i0, o0, x, i, o, n)
  {
    hide Ref, Used;
    forall s: Slot ensures Ref(x, i, s) == if s.n == n then 0 else Ref(x0, i0, s) {
      GoneRef(x0, i0, o0, x1, i1, o1, x, i, o, n, s);
    }
    forall b | b in o0 ensures b in o <==> o0[b].n != n {
      assert Ref(x0, i0, o0[b]) == b;
      RealSlot(x0, i0, o0[b]);
    }
  }

  lemma TruncContent(g: Layout, x0: Blocks, i0: Inodes, o0: Owners, x: Blocks, i: Inodes, o: Owners, i': Inodes, n: nat)
    requires FsOk(g, x0, i0, o0) && FsOk(g, x, i, o) && Emptied(x0, i0, o0, x, i, o, n) && n in i
    requires i' == i[n := i[n].(size := 0)] && SameSlots(x, i, i')
    ensures Content(x, i', n) == []
    ensures forall m :: m in i' && m != n ==> Content(x, i', m) == Content(x0, i0, m)
    ensures forall s: Slot :: s.n == n ==> Ref(x, i', s) == 0
    ensures forall b :: b in o <==> b in o0 && o0[b].n != n
  {
    hide Ref, Used;
    forall m: nat, q: nat | m != n ensures ByteAt(x, i', m, q) == ByteAt(x0, i0, m, q) {
      var s := SlotOf(m, q / BSIZE);
      assert Ref(x, i', s) == Ref(x, i, s);
      assert Ref(x, i, s) == Ref(x0, i0, s);
      assert Ref(x, i, s) != 0 ==> Ref(x, i, s) in o && o[Ref(x, i, s)] == s;
    }
    hide ByteAt;
    forall m | m in i' && m != n ensures Content(x, i', m) == Content(x0, i0, m) {
      assert forall q: nat :: ByteAt(x, i', m, q) == ByteAt(x0, i0, m, q);
    }
  }

  lemma TruncHoles(x0: Blocks, i0: Inodes, o0: Owners, x: Blocks, i: Inodes, o: Owners, i': Inodes, n: nat)
    requires Emptied(x0, i0, o0, x, i, o, n) && n in i && i' == i[n := i[n].(size := 0)] && SameSlots(x, i, i')
    ensures forall m :: m in i0 && HoleFree(x0, i0, m) ==> HoleFree(x, i', m)
  {
    hide Ref;
    forall m | m in i0 && HoleFree(x0, i0, m) ensures HoleFree(x, i', m) {
      forall bn: nat | bn * BSIZE < i'[m].size ensures Ref(x, i', SlotOf(m, bn)) != 0 {
        assert Ref(x, i', SlotOf(m, bn)) == Ref(x, i, SlotOf(m, bn));
      }
    }
  }

  // ---------------------------------------------------------------- contents

  function Content(x: Blocks, i: Inodes, n: nat): (c: seq<nat>)
    requires n in i
    ensures |c| == i[n].size
  {
    seq(i[n].size, off requires 0 <= off < i[n].size => ByteAt(x, i, n, off))
  }

  // c with d laid over it at off; longer if d reaches beyond the end.
  function Overlay(c: seq<nat>, off: nat, d: seq<nat>): (e: seq<nat>)
    requires off <= |c|
  {
    seq(if off + |d| > |c| then off + |d| else |c|,
        k requires 0 <= k && (k < |c| || k < off + |d|) => if off <= k < off + |d| then d[k - off] else c[k])
  }

  // Every block below the size is there.
  ghost predicate HoleFree(x: Blocks, i: Inodes, n: nat) {
    n in i && forall bn: nat :: bn * BSIZE < i[n].size ==> Ref(x, i, SlotOf(n, bn)) != 0
  }

  // The bytes d were written at off0 of file n and nothing else changed; the
  // blocks that start within them are there.
  ghost predicate Wrote(x: Blocks, i: Inodes, y: Blocks, i': Inodes, n: nat, off0: nat, d: seq<nat>) {
    && (forall m: nat, q: nat :: ByteAt(y, i', m, q) ==
          if m == n && off0 <= q < off0 + |d| then d[q - off0] else ByteAt(x, i, m, q))
    && i'.Keys == i.Keys && (forall m :: m in i ==> i'[m].size == i[m].size)
    && (forall s: Slot :: Ref(x, i, s) != 0 ==> Ref(y, i', s) == Ref(x, i, s))
    && (forall bn: nat :: off0 <= bn * BSIZE < off0 + |d| ==> Ref(y, i', SlotOf(n, bn)) != 0)
  }

  lemma WroteNothing(x: Blocks, i: Inodes, n: nat, off0: nat)
    ensures Wrote(x, i, x, i, n, off0, [])
  {
  }

  lemma SameChunk(off: nat, len: nat, q: nat)
    requires off % BSIZE + len <= BSIZE
    ensures off <= q < off + len <==> q / BSIZE == off / BSIZE && off % BSIZE <= q % BSIZE < off % BSIZE + len
    ensures q / BSIZE == off / BSIZE ==> q - off == q % BSIZE - off % BSIZE
  {
    assert off == off / BSIZE * BSIZE + off % BSIZE && q == q / BSIZE * BSIZE + q % BSIZE;
    if off <= q < off + len {
      assert q == off / BSIZE * BSIZE + (off % BSIZE + (q - off));
    }
  }

  lemma ExtendedWrote(x0: Blocks, i0: Inodes, x: Blocks, i: Inodes, y: Blocks, i': Inodes, n: nat, bn: nat, off0: nat,
                      d: seq<nat>)
    requires Wrote(x0, i0, x, i, n, off0, d) && Extended(x, i, y, i', n, bn)
    ensures Wrote(x0, i0, y, i', n, off0, d)
  {
    hide Ref, ByteAt;
    forall m: nat, q: nat
      ensures ByteAt(y, i', m, q) == if m == n && off0 <= q < off0 + |d| then d[q - off0] else ByteAt(x0, i0, m, q)
    {
      assert ByteAt(y, i', m, q) == ByteAt(x, i, m, q);
    }
    forall s: Slot | Ref(x0, i0, s) != 0 ensures Ref(y, i', s) == Ref(x0, i0, s) {
      assert Ref(x, i, s) == Ref(x0, i0, s);
    }
    forall b: nat | off0 <= b * BSIZE < off0 + |d| ensures Ref(y, i', SlotOf(n, b)) != 0 {
      assert Ref(x, i, SlotOf(n, b)) != 0;
    }
  }

  // A block that a slot refers to.
  lemma RefBlock(g: Layout, x: Blocks, i: Inodes, o: Owners, s: Slot)
    requires FsOk(g, x, i, o) && Ref(x, i, s) != 0
    ensures Ref(x, i, s) < |x| && IsBlock(x[Ref(x, i, s)]) && Ref(x, i, s) in o && o[Ref(x, i, s)] == s
  {
  }

  lemma SpliceBlock(b: Block, at: nat, e: seq<nat>)
    requires IsBlock(b) && at + |e| <= BSIZE && forall k :: 0 <= k < |e| ==> e[k] < 256
    ensures IsBlock(Splice(b, at, e))
  {
  }

  // One round of writei's loop, after bmap.
  lemma WriteRound(g: Layout, x0: Blocks, i0: Inodes, y: Blocks, i: Inodes, o: Owners, n: nat, off0: nat, d: seq<nat>,
                   e: seq<nat>, off: nat, a: nat)
    requires FsOk(g, y, i, o) && Wrote(x0, i0, y, i, n, off0, d) && off == off0 + |d|
    requires off % BSIZE + |e| <= BSIZE && forall k :: 0 <= k < |e| ==> e[k] < 256
    requires a == Ref(y, i, SlotOf(n, off / BSIZE)) && a != 0 && a < |y| && |y[a]| == BSIZE
    ensures FsOk(g, y[a := Splice(y[a], off % BSIZE, e)], i, o)
    ensures Wrote(x0, i0, y[a := Splice(y[a], off % BSIZE, e)], i, n, off0, d + e)
  {
    hide FsOk, Ref, ByteAt, Wrote, Splice, BytesBut;
    RefBlock(g, y, i, o, SlotOf(n, off / BSIZE));
    SpliceBlock(y[a], off % BSIZE, e);
    var c := Splice(y[a], off % BSIZE, e);
    WriteBlock(g, y, i, o, n, off / BSIZE, c);
    WroteMore(x0, i0, y, y[a := Splice(y[a], off % BSIZE, e)], i, n, off0, d, e, off, a);
  }

  lemma WroteMore(x0: Blocks, i0: Inodes, y: Blocks, z: Blocks, i: Inodes, n: nat, off0: nat, d: seq<nat>, e: seq<nat>,
                  off: nat, a: nat)
    requires Wrote(x0, i0, y, i, n, off0, d) && off == off0 + |d| && off % BSIZE + |e| <= BSIZE
    requires forall s: Slot :: Ref(z, i, s) == Ref(y, i, s)
    requires a == Ref(y, i, SlotOf(n, off / BSIZE)) && a != 0 && a < |y| && |y[a]| == BSIZE
    requires BytesBut(y, z, i, n, off / BSIZE, Splice(y[a], off % BSIZE, e))
    ensures Wrote(x0, i0, z, i, n, off0, d + e)
  {
    forall m: nat, q: nat
      ensures ByteAt(z, i, m, q) ==
        if m == n && off0 <= q < off0 + |d + e| then (d + e)[q - off0] else ByteAt(x0, i0, m, q)
    {
      RoundByte(x0, i0, y, z, i, n, off0, d, e, m, q);
    }
    hide ByteAt, Ref;
    forall s: Slot | Ref(x0, i0, s) != 0 ensures Ref(z, i, s) == Ref(x0, i0, s) {
      assert Ref(y, i, s) == Ref(x0, i0, s);
    }
    forall b: nat | off0 <= b * BSIZE < off0 + |d + e| ensures Ref(z, i, SlotOf(n, b)) != 0 {
      if b * BSIZE >= off {
        SameChunk(off, |e|, b * BSIZE);
      } else {
        assert Ref(y, i, SlotOf(n, b)) != 0;
      }
    }
  }

  lemma RoundByte(x0: Blocks, i0: Inodes, y: Blocks, z: Blocks, i: Inodes, n: nat, off0: nat, d: seq<nat>, e: seq<nat>,
                  m: nat, q: nat)
    requires Wrote(x0, i0, y, i, n, off0, d) && (off0 + |d|) % BSIZE + |e| <= BSIZE
    requires var off := off0 + |d|;
             var a := Ref(y, i, SlotOf(n, off / BSIZE));
             && a != 0 && a < |y| && |y[a]| == BSIZE
             && ByteAt(z, i, m, q) ==
                  if m == n && q / BSIZE == off / BSIZE then Splice(y[a], off % BSIZE, e)[q % BSIZE]
                  else ByteAt(y, i, m, q)
    ensures ByteAt(z, i, m, q) ==
      if m == n && off0 <= q < off0 + |d + e| then (d + e)[q - off0] else ByteAt(x0, i0, m, q)
  {
    hide Ref;
    SameChunk(off0 + |d|, |e|, q);
    assert ByteAt(y, i, m, q) == if m == n && off0 <= q < off0 + |d| then d[q - off0] else ByteAt(x0, i0, m, q);
  }

  lemma WroteKeys(x: Blocks, i: Inodes, y: Blocks, i': Inodes, n: nat, off0: nat, d: seq<nat>)
    requires Wrote(x, i, y, i', n, off0, d)
    ensures i'.Keys == i.Keys && forall m :: m in i ==> i'[m].size == i[m].size
  {
  }

  lemma BlockSize(b: Block)
    requires IsBlock(b)
    ensures |b| == BSIZE
  {
  }

  // A change of size changes no slot.
  lemma SizeOk(g: Layout, x: Blocks, i: Inodes, i': Inodes, o: Owners, n: nat)
    requires FsOk(g, x, i, o) && n in i && n in i' && i' == i[n := i[n].(size := i'[n].size)]
    ensures FsOk(g, x, i', o) && SameSlots(x, i, i')
  {
    assert forall s: Slot :: Ref(x, i', s) == Ref(x, i, s);
  }

  ghost predicate SameSlots(x: Blocks, i: Inodes, i': Inodes) {
    forall s: Slot :: Ref(x, i', s) == Ref(x, i, s)
  }

  // What WriteBytes did, seen as contents.
  lemma WroteContent(x: Blocks, i: Inodes, y: Blocks, i1: Inodes, i': Inodes, n: nat, off: nat, d: seq<nat>)
    requires Wrote(x, i, y, i1, n, off, d) && SameSlots(y, i1, i') && n in i && off <= i[n].size
    requires i' == i1[n := i1[n].(size := if off + |d| > i[n].size then off + |d| else i[n].size)]
    ensures Content(y, i', n) == Overlay(Content(x, i, n), off, d)
    ensures forall m :: m in i && m != n ==> Content(y, i', m) == Content(x, i, m)
    ensures forall m :: m in i && HoleFree(x, i, m) ==> HoleFree(y, i', m)
  {
    hide Ref;
    forall m: nat, q: nat ensures ByteAt(y, i', m, q) == ByteAt(y, i1, m, q) {
    }
    hide ByteAt;
    forall m | m in i && m != n ensures Content(y, i', m) == Content(x, i, m) {
      assert forall q: nat :: ByteAt(y, i', m, q) == ByteAt(x, i, m, q);
    }
    forall m | m in i && HoleFree(x, i, m) ensures HoleFree(y, i', m) {
      forall bn: nat | bn * BSIZE < i'[m].size ensures Ref(y, i', SlotOf(m, bn)) != 0 {
        assert Ref(y, i', SlotOf(m, bn)) == Ref(y, i1, SlotOf(m, bn));
      }
    }
  }

  // readi's range: nothing beyond the end, nothing if off + n wraps.
  function Clipped(size: nat, off: nat, cnt: nat): nat {
    if off > size || off + cnt >= UINT then 0 else if off + cnt > size then size - off else cnt
  }

  lemma ReadNothing(x: Blocks, i: Inodes)
    ensures SameBytes(x, i, x, i)
  {
  }

  lemma SameBytesTwice(x: Blocks, i: Inodes, y: Blocks, i': Inodes, z: Blocks, i'': Inodes)
    requires SameBytes(x, i, y, i') && SameBytes(y, i', z, i'')
    ensures SameBytes(x, i, z, i'')
  {
    hide ByteAt;
    forall m: nat, off: nat ensures ByteAt(z, i'', m, off) == ByteAt(x, i, m, off) {
      assert ByteAt(z, i'', m, off) == ByteAt(y, i', m, off);
    }
  }

  lemma SameContents(x: Blocks, i: Inodes, y: Blocks, i': Inodes)
    requires SameBytes(x, i, y, i') && i'.Keys == i.Keys && forall m :: m in i ==> i'[m].size == i[m].size
    ensures forall m :: m in i' ==> Content(y, i', m) == Content(x, i, m)
  {
    hide ByteAt;
  }

  lemma BlockThere(x: Blocks, i: Inodes, n: nat, off: nat)
    requires HoleFree(x, i, n) && off < i[n].size
    ensures Ref(x, i, SlotOf(n, off / BSIZE)) != 0
  {
    assert off / BSIZE * BSIZE <= off;
  }

  lemma ExtendedHoles(x: Blocks, i: Inodes, y: Blocks, i': Inodes, n: nat, bn: nat)
    requires Extended(x, i, y, i', n, bn)
    ensures forall m :: m in i && HoleFree(x, i, m) ==> HoleFree(y, i', m)
  {
    hide Ref;
  }

  lemma ReadSlice(x: Blocks, i: Inodes, n: nat, off0: nat, dst: seq<nat>)
    requires n in i && off0 + |dst| <= i[n].size && forall k: nat :: k < |dst| ==> dst[k] == ByteAt(x, i, n, off0 + k)
    ensures dst == Content(x, i, n)[off0..off0 + |dst|]
  {
    hide ByteAt;
  }

  lemma ReadRound(x0: Blocks, i0: Inodes, y: Blocks, i: Inodes, n: nat, off0: nat, dst: seq<nat>, e: seq<nat>, off: nat,
                  a: nat)
    requires SameBytes(x0, i0, y, i) && off == off0 + |dst| && off % BSIZE + |e| <= BSIZE
    requires a == Ref(y, i, SlotOf(n, off / BSIZE)) && a != 0 && a < |y| && |y[a]| == BSIZE
    requires e == y[a][off % BSIZE..off % BSIZE + |e|]
    requires forall k: nat :: k < |dst| ==> dst[k] == ByteAt(x0, i0, n, off0 + k)
    ensures forall k: nat :: k < |dst + e| ==> (dst + e)[k] == ByteAt(x0, i0, n, off0 + k)
  {
    hide Ref;
    forall k: nat | k < |dst + e| ensures (dst + e)[k] == ByteAt(x0, i0, n, off0 + k) {
      if k >= |dst| {
        SameChunk(off, |e|, off0 + k);
        assert ByteAt(y, i, n, off0 + k) == ByteAt(x0, i0, n, off0 + k);
      }
    }
  }

  // bmap may fill slot bn of file n and its indirect slot; no other slot, no
  // size and no byte of any file changes.
  ghost predicate Extended(x: Blocks, i: Inodes, y: Blocks, i': Inodes, n: nat, bn: nat) {
    && SameBytes(x, i, y, i')
    && i'.Keys == i.Keys && (forall m :: m in i ==> i'[m].size == i[m].size)
    && (forall s: Slot :: Ref(x, i, s) != 0 || (s != SlotOf(n, bn) && s != Indirect(n)) ==>
          Ref(y, i', s) == Ref(x, i, s))
  }

  lemma ExtendedNothing(x: Blocks, i: Inodes, n: nat, bn: nat)
    ensures Extended(x, i, x, i, n, bn)
  {
  }

  lemma ExtendedTwice(x: Blocks, i: Inodes, y: Blocks, i': Inodes, z: Blocks, i'': Inodes, n: nat, bn: nat)
    requires Extended(x, i, y, i', n, bn) && Extended(y, i', z, i'', n, bn)
    ensures Extended(x, i, z, i'', n, bn)
  {
    hide Ref, ByteAt;
    forall m: nat, off: nat ensures ByteAt(z, i'', m, off) == ByteAt(x, i, m, off) {
      assert ByteAt(z, i'', m, off) == ByteAt(y, i', m, off);
    }
    forall s: Slot | Ref(x, i, s) != 0 || (s != SlotOf(n, bn) && s != Indirect(n))
      ensures Ref(z, i'', s) == Ref(x, i, s)
    {
      assert Ref(y, i', s) == Ref(x, i, s);
    }
  }

  lemma TookExtends(g: Layout, x: Blocks, i: Inodes, y: Blocks, i': Inodes, o: Owners, t: Slot, b: nat, n: nat, bn: nat)
    requires Took(g, x, i, y, i', o, t, b) && SameBytes(x, i, y, i') && (t == SlotOf(n, bn) || t == Indirect(n))
    requires i'.Keys == i.Keys && (forall m :: m in i ==> i'[m].size == i[m].size)
    ensures Extended(x, i, y, i', n, bn) && Ref(y, i', t) == b
  {
    hide Ref, ByteAt;
  }

  lemma OkFacts(g: Layout, x: Blocks, i: Inodes, o: Owners, n: nat)
    requires FsOk(g, x, i, o) && n in i
    ensures |i[n].addrs| == NDIRECT + 1 && WellFormed(g, x)
    ensures forall k: nat :: k < g.datastart ==> Used(g, x, k)
  {
  }

  lemma AddrRef(x: Blocks, i: Inodes, n: nat, k: nat)
    requires n in i && |i[n].addrs| == NDIRECT + 1 && k <= NDIRECT
    ensures Ref(x, i, AddrSlot(n, k)) == i[n].addrs[k]
  {
  }

  lemma IndirectBlock(g: Layout, x: Blocks, i: Inodes, o: Owners, n: nat)
    requires FsOk(g, x, i, o) && Ref(x, i, Indirect(n)) != 0
    ensures var a := Ref(x, i, Indirect(n)); a in o && o[a] == Indirect(n) && a < |x| && IsBlock(x[a])
  {
  }

  lemma LayoutFacts(g: Layout, blocks: Blocks)
    requires WellFormed(g, blocks)
    ensures |blocks| == g.size && 0 < g.datastart <= g.size
  {
  }

  lemma SameMapBlock(b: nat, bi: nat)
    requires b % BPB == 0 && bi < BPB
    ensures (b + bi) / BPB == b / BPB && (b + bi) % BPB == bi
  {
  }

  // memset(bp->data, 0, BSIZE) on a data block
  lemma ZeroBlock(g: Layout, x: Blocks, y: Blocks, b: nat)
    requires WellFormed(g, x) && Turned(g, x, y, b, true) && b < g.size && !Used(g, x, b)
    requires forall k: nat :: k < g.datastart ==> Used(g, x, k)
    ensures b < |y| && b != 0 && Allocated(g, x, y[b := Zeros()], b)
  {
    var z := y[b := Zeros()];
    UsedElsewhere(g, y, z, b);
  }
}
