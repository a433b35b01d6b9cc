/**
  Where the file system keeps things inside blocks: the bits of the free map and the 32-bit words of an
  indirect block.  Sizes are symbolic: `bsize` is BSIZE, `ndirect` NDIRECT, `nmeta` the first data block.
*/
module FsLayout {
  import opened Machine

  type Block = seq<byte>

  /** The super block and the compile-time sizes. */
  datatype Super = Super(bsize: nat, ndirect: nat, size: nat, nmeta: nat, bmapstart: nat, inodestart: nat, ipb: nat,
    ninodes: nat)

  function MapBits(bsize: nat): nat {       // BPB
    8 * bsize
  }

  /** BBLOCK(b), and the byte and bit of `b` inside that block. */
  function MapBlock(sup: Super, b: nat): nat
    requires sup.bsize > 0
  {
    Quot(b, MapBits(sup.bsize)) + sup.bmapstart
  }

  function MapByte(sup: Super, b: nat): (r: nat)
    requires sup.bsize > 0
    ensures r < sup.bsize
  {
    Rest(b, MapBits(sup.bsize)) / 8
  }

  function MapBit(sup: Super, b: nat): (r: nat)
    requires sup.bsize > 0
    ensures r < 8
  {
    Rest(b, MapBits(sup.bsize)) % 8
  }

  /** IBLOCK(i). */
  function InodeBlock(sup: Super, i: nat): nat
    requires sup.ipb > 0
  {
    Quot(i, sup.ipb) + sup.inodestart
  }

  /** What mkfs guarantees: the inode blocks and the free map lie below the first data block, and all
      block numbers fit in 32 bits. */
  predicate SuperOk(sup: Super) {
    && sup.bsize > 0 && sup.bsize % 4 == 0 && sup.ipb > 0
    && 0 < sup.nmeta <= sup.size < W32
    && MetaBelow(sup)
  }

  predicate MetaBelow(sup: Super)
    requires sup.bsize > 0 && sup.ipb > 0
  {
    && (forall b: nat :: b < sup.size ==> MapBlock(sup, b) < sup.nmeta)
    && (forall i: nat :: i < sup.ninodes ==> InodeBlock(sup, i) < sup.nmeta)
  }

  // ---------------------------------------------------------------- one bit of a byte

  function Pow2(n: nat): (p: nat)
    ensures p > 0
  {
    if n == 0 then 1 else 2 * Pow2(n - 1)
  }

  /** (x & (1 << k)) != 0. */
  predicate TestBit(x: nat, k: nat) {
    if k == 0 then x % 2 == 1 else TestBit(x / 2, k - 1)
  }

  /** `x` with bit `k` made `v`: x | 1 << k, or x & ~(1 << k). */
  function PutBit(x: nat, k: nat, v: bool): (y: nat)
    ensures TestBit(y, k) == v
  {
    if k == 0 then 2 * (x / 2) + (if v then 1 else 0) else 2 * PutBit(x / 2, k - 1, v) + x % 2
  }

  lemma {:induction false} PutBitOthers(x: nat, k: nat, v: bool, j: nat)
    requires j != k
    ensures TestBit(PutBit(x, k, v), j) == TestBit(x, j)
    decreases k
  {
    if k > 0 && j > 0 {
      PutBitOthers(x / 2, k - 1, v, j - 1);
    }
  }

  /** Changing a bit below position `n` does not need more than `n` bits. */
  lemma {:induction false} PutBitFits(x: nat, k: nat, v: bool, n: nat)
    requires x < Pow2(n) && k < n
    ensures PutBit(x, k, v) < Pow2(n)
    decreases n
  {
    if k > 0 {
      PutBitFits(x / 2, k - 1, v, n - 1);
    }
  }

  lemma ByteIsEightBits()
    ensures Pow2(8) == 256
  {
    assert Pow2(4) == 16;
  }

  // ---------------------------------------------------------------- the free map

  /** Is block `b` marked in use? */
  predicate Bit(sup: Super, disk: seq<Block>, b: nat)
    requires Mapped(sup, disk, b)
  {
    TestBit(disk[MapBlock(sup, b)][MapByte(sup, b)] as int, MapBit(sup, b))
  }

  predicate Mapped(sup: Super, disk: seq<Block>, b: nat) {
    sup.bsize > 0 && MapBlock(sup, b) < |disk| && |disk[MapBlock(sup, b)]| == sup.bsize
  }

  /** The free map block of `b` after setting or clearing the bit of `b`. */
  function MarkedBlock(sup: Super, disk: seq<Block>, b: nat, v: bool): (r: Block)
    requires Mapped(sup, disk, b)
    ensures |r| == sup.bsize
  {
    var blk := disk[MapBlock(sup, b)];
    var x := blk[MapByte(sup, b)] as int;
    ByteIsEightBits();
    PutBitFits(x, MapBit(sup, b), v, 8);
    blk[MapByte(sup, b) := PutBit(x, MapBit(sup, b), v) as byte]
  }

  /** A block is determined by its place in the free map. */
  lemma MapPlaceUnique(sup: Super, b: nat, c: nat)
    requires sup.bsize > 0
    requires MapBlock(sup, b) == MapBlock(sup, c) && MapByte(sup, b) == MapByte(sup, c)
             && MapBit(sup, b) == MapBit(sup, c)
    ensures b == c
  {
    var n := MapBits(sup.bsize);
    assert Rest(b, n) == Rest(c, n);
    assert Quot(b, n) == Quot(c, n);
    assert b == n * Quot(b, n) + Rest(b, n);
    assert c == n * Quot(c, n) + Rest(c, n);
  }

  /** Marking `b` changes the bit of `b` and of no other block. */
  lemma MarkedBits(sup: Super, disk: seq<Block>, b: nat, v: bool, c: nat)
    requires Mapped(sup, disk, b) && Mapped(sup, disk, c)
    ensures var disk' := disk[MapBlock(sup, b) := MarkedBlock(sup, disk, b, v)];
            Mapped(sup, disk', c) && Bit(sup, disk', c) == if c == b then v else Bit(sup, disk, c)
  {
    hide MapBlock, MapByte, MapBit, PutBit, TestBit;
    if c != b && MapBlock(sup, c) == MapBlock(sup, b) && MapByte(sup, c) == MapByte(sup, b) {
      if MapBit(sup, c) == MapBit(sup, b) {
        MapPlaceUnique(sup, b, c);
      } else {
        PutBitOthers(disk[MapBlock(sup, b)][MapByte(sup, b)] as int, MapBit(sup, b), v, MapBit(sup, c));
      }
    }
  }

  // ---------------------------------------------------------------- the words of an indirect block

  function LittleEndian(b0: byte, b1: byte, b2: byte, b3: byte): (v: nat)
    ensures v < W32
  {
    b0 as int + 256 * b1 as int + 65536 * b2 as int + 16777216 * b3 as int
  }

  /** ((uint*)data)[j]. */
  function Word(blk: Block, j: nat): (v: nat)
    requires 4 * j + 4 <= |blk|
    ensures v < W32
  {
    LittleEndian(blk[4 * j], blk[4 * j + 1], blk[4 * j + 2], blk[4 * j + 3])
  }

  function PutWord(blk: Block, j: nat, v: nat): (r: Block)
    requires 4 * j + 4 <= |blk| && v < W32
    ensures |r| == |blk|
  {
    blk[4 * j := (v % 256) as byte][4 * j + 1 := (v / 256 % 256) as byte]
       [4 * j + 2 := (v / 65536 % 256) as byte][4 * j + 3 := (v / 16777216) as byte]
  }

  lemma WordPut(blk: Block, j: nat, v: nat, k: nat)
    requires 4 * j + 4 <= |blk| && 4 * k + 4 <= |blk| && v < W32
    ensures Word(PutWord(blk, j, v), k) == if k == j then v else Word(blk, k)
  {
    if k == j {
      assert v == v % 256 + 256 * (v / 256 % 256) + 65536 * (v / 65536 % 256) + 16777216 * (v / 16777216);
    }
  }

  function Zeros(n: nat): (r: Block)
    ensures |r| == n && forall k :: 0 <= k < n ==> r[k] == 0
  {
    seq(n, k => 0)
  }

  lemma {:induction false} ZeroBits(k: nat)
    ensures !TestBit(0, k)
    decreases k
  {
    if k > 0 {
      ZeroBits(k - 1);
    }
  }
}
