/**
  The file system as it lies on the disk: struct dinode inside the inode blocks, and the file system that
  a kernel finds when it reads a disk of word blocks.
*/
module FsImage {
  import opened Machine
  import opened FsLayout
  import opened FsInodes
  import opened FileSystem
  import LogCrash

  // ---------------------------------------------------------------- struct dinode

  /** Words in a struct dinode: two of type, device and link count, the size, the addresses. */
  function DinodeWords(sup: Super): nat {
    sup.ndirect + 4
  }

  /** IPB whole structures fit in a block. */
  predicate InodesFit(sup: Super) {
    sup.ipb > 0 && 4 * (sup.ipb * DinodeWords(sup)) <= sup.bsize
  }

  /** Word `f` of the structure of inode `i` inside its block. */
  function DinodeWord(sup: Super, i: nat, f: nat): (w: nat)
    requires InodesFit(sup) && f < DinodeWords(sup)
    ensures 4 * w + 4 <= sup.bsize
  {
    SlotFits(Rest(i, sup.ipb), sup.ipb, DinodeWords(sup), f);
    Rest(i, sup.ipb) * DinodeWords(sup) + f
  }

  lemma SlotFits(s: nat, n: nat, d: nat, f: nat)
    requires s < n && f < d
    ensures s * d + f < n * d
  {
    assert (s + 1) * d <= n * d;
  }

  /** What ilock reads: size and addresses. */
  function GetInode(sup: Super, blk: Block, i: nat): (r: Inode)
    requires InodesFit(sup) && |blk| == sup.bsize
    ensures |r.addrs| == sup.ndirect + 1
  {
    Inode(seq(sup.ndirect + 1, j requires 0 <= j <= sup.ndirect => Word(blk, DinodeWord(sup, i, 3 + j))),
      Word(blk, DinodeWord(sup, i, 2)))
  }

  /** The inode's numbers are uint32. */
  predicate Encodable(sup: Super, ino: Inode) {
    ino.size < W32 && |ino.addrs| == sup.ndirect + 1 && forall j :: 0 <= j <= sup.ndirect ==> ino.addrs[j] < W32
  }

  /** memmove of the first `n` addresses. */
  function PutAddrs(sup: Super, blk: Block, i: nat, ino: Inode, n: nat): (r: Block)
    requires InodesFit(sup) && |blk| == sup.bsize && Encodable(sup, ino) && n <= sup.ndirect + 1
    ensures |r| == sup.bsize
  {
    if n == 0 then blk
    else PutWord(PutAddrs(sup, blk, i, ino, n - 1), DinodeWord(sup, i, 3 + (n - 1)), ino.addrs[n - 1])
  }

  /** What iupdate stores. */
  function PutInode(sup: Super, blk: Block, i: nat, ino: Inode): (r: Block)
    requires InodesFit(sup) && |blk| == sup.bsize && Encodable(sup, ino)
    ensures |r| == sup.bsize
  {
    PutAddrs(sup, PutWord(blk, DinodeWord(sup, i, 2), ino.size), i, ino, sup.ndirect + 1)
  }

  /** Words of different fields, or of different inodes in one block, are different words. */
  lemma DinodeWordUnique(sup: Super, i: nat, f: nat, k: nat, h: nat)
    requires InodesFit(sup) && f < DinodeWords(sup) && h < DinodeWords(sup) && Quot(i, sup.ipb) == Quot(k, sup.ipb)
    requires DinodeWord(sup, i, f) == DinodeWord(sup, k, h)
    ensures i == k && f == h
  {
    var d := DinodeWords(sup);
    DivModUnique(DinodeWord(sup, i, f), d, Rest(i, sup.ipb), f);
    DivModUnique(DinodeWord(sup, k, h), d, Rest(k, sup.ipb), h);
    assert i == sup.ipb * Quot(i, sup.ipb) + Rest(i, sup.ipb) && k == sup.ipb * Quot(k, sup.ipb) + Rest(k, sup.ipb);
  }

  lemma {:induction false} PutAddrsWord(sup: Super, blk: Block, i: nat, ino: Inode, n: nat, k: nat, h: nat)
    requires InodesFit(sup) && |blk| == sup.bsize && Encodable(sup, ino) && n <= sup.ndirect + 1
    requires h < DinodeWords(sup) && Quot(i, sup.ipb) == Quot(k, sup.ipb)
    ensures Word(PutAddrs(sup, blk, i, ino, n), DinodeWord(sup, k, h))
         == if k == i && 3 <= h < 3 + n then ino.addrs[h - 3] else Word(blk, DinodeWord(sup, k, h))
    decreases n
  {
    hide DinodeWord, PutWord, Word, Quot;
    if n > 0 {
      PutAddrsWord(sup, blk, i, ino, n - 1, k, h);
      var f := 3 + (n - 1);
      WordPut(PutAddrs(sup, blk, i, ino, n - 1), DinodeWord(sup, i, f), ino.addrs[n - 1], DinodeWord(sup, k, h));
      if DinodeWord(sup, i, f) == DinodeWord(sup, k, h) {
        DinodeWordUnique(sup, i, f, k, h);
      }
    }
  }

  lemma PutInodeWord(sup: Super, blk: Block, i: nat, ino: Inode, k: nat, h: nat)
    requires InodesFit(sup) && |blk| == sup.bsize && Encodable(sup, ino)
    requires 2 <= h < DinodeWords(sup) && Quot(i, sup.ipb) == Quot(k, sup.ipb)
    ensures Word(PutInode(sup, blk, i, ino), DinodeWord(sup, k, h))
         == if k != i then Word(blk, DinodeWord(sup, k, h)) else if h == 2 then ino.size else ino.addrs[h - 3]
  {
    hide DinodeWord, PutWord, Word, Quot, PutAddrs;
    var blk' := PutWord(blk, DinodeWord(sup, i, 2), ino.size);
    PutAddrsWord(sup, blk', i, ino, sup.ndirect + 1, k, h);
    WordPut(blk, DinodeWord(sup, i, 2), ino.size, DinodeWord(sup, k, h));
    if DinodeWord(sup, i, 2) == DinodeWord(sup, k, h) {
      DinodeWordUnique(sup, i, 2, k, h);
    }
  }

  /** With NDIRECT 12, BSIZE 1024 and IPB 16, as kernel/fs.h has them: the size is at byte 8 of the 64-byte structure,
      the addresses follow from byte 12 on. */
  lemma DinodeBytes(sup: Super, blk: Block, i: nat, j: nat)
    requires sup.ndirect == 12 && sup.bsize == 1024 && sup.ipb == 16 && |blk| == 1024 && j <= 12
    ensures InodesFit(sup)
    ensures GetInode(sup, blk, i).size == Bytes4(blk, 64 * (i % 16) + 8)
    ensures GetInode(sup, blk, i).addrs[j] == Bytes4(blk, 64 * (i % 16) + 12 + 4 * j)
  {
    hide LittleEndian;
    assert DinodeWord(sup, i, 2) == 16 * (i % 16) + 2;
    assert DinodeWord(sup, i, 3 + j) == 16 * (i % 16) + 3 + j;
  }

  /** The uint32 at byte `at`. */
  function Bytes4(blk: Block, at: nat): nat
    requires at + 4 <= |blk|
  {
    LittleEndian(blk[at], blk[at + 1], blk[at + 2], blk[at + 3])
  }

  /** ilock reads back what iupdate stored, and the other inodes of the block are as they were. */
  lemma InodeRoundTrip(sup: Super, blk: Block, i: nat, ino: Inode, k: nat)
    requires InodesFit(sup) && |blk| == sup.bsize && Encodable(sup, ino) && Quot(i, sup.ipb) == Quot(k, sup.ipb)
    ensures GetInode(sup, PutInode(sup, blk, i, ino), k) == if k == i then ino else GetInode(sup, blk, k)
  {
    hide DinodeWord, Word, Quot, PutInode;
    var r, want := GetInode(sup, PutInode(sup, blk, i, ino), k), if k == i then ino else GetInode(sup, blk, k);
    PutInodeWord(sup, blk, i, ino, k, 2);
    forall j | 0 <= j <= sup.ndirect ensures r.addrs[j] == want.addrs[j] {
      PutInodeWord(sup, blk, i, ino, k, 3 + j);
    }
    assert r.addrs == want.addrs;
  }

  // ---------------------------------------------------------------- a disk that holds a file system

  /** The bytes of a block of words. */
  function Bytes(ws: LogCrash.Block): (r: Block)
    ensures |r| == 4 * |ws|
  {
    seq(4 * |ws|, k requires 0 <= k < 4 * |ws| => ByteOf(ws[k / 4], k % 4))
  }

  function ByteOf(w: nat, k: nat): byte {
    ((if k == 0 then w else if k == 1 then w / 256 else if k == 2 then w / 65536 else w / 16777216) % 256) as byte
  }

  /** The words of a block of bytes, and back. */
  function Words(blk: Block): (r: LogCrash.Block)
    ensures |r| == |blk| / 4
  {
    seq(|blk| / 4, j requires 0 <= j < |blk| / 4 => Word(blk, j))
  }

  lemma BytesWords(blk: Block)
    requires |blk| % 4 == 0
    ensures Bytes(Words(blk)) == blk
  {
    hide ByteOf, LittleEndian;
    forall k: nat | k < |blk| ensures Bytes(Words(blk))[k] == blk[k] {
      var j, b := k / 4, k % 4;
      assert k == 4 * j + b;
      WordBytes(blk[4 * j], blk[4 * j + 1], blk[4 * j + 2], blk[4 * j + 3]);
    }
  }

  lemma WordBytes(b0: byte, b1: byte, b2: byte, b3: byte)
    ensures var w := LittleEndian(b0, b1, b2, b3);
            ByteOf(w, 0) == b0 && ByteOf(w, 1) == b1 && ByteOf(w, 2) == b2 && ByteOf(w, 3) == b3
  {
    var w := LittleEndian(b0, b1, b2, b3);
    assert w / 256 == b1 as int + 256 * b2 as int + 65536 * b3 as int;
    assert w / 65536 == b2 as int + 256 * b3 as int;
    assert w / 16777216 == b3 as int;
  }

  /** mkfs's order: log, inode blocks, free map, data blocks. */
  predicate Layout(sup: Super, g: LogCrash.Geometry) {
    && SuperOk(sup) && InodesFit(sup) && g.Valid() && g.nblocks == sup.size && 4 * g.words == sup.bsize
    && g.start + g.size < sup.inodestart <= sup.bmapstart && g.start + g.size < sup.nmeta
    && forall i: nat :: i < sup.ninodes ==> InodeBlock(sup, i) < sup.bmapstart
  }

  predicate HasInode(sup: Super, i: nat, b: nat)
    requires sup.ipb > 0
  {
    i < sup.ninodes && InodeBlock(sup, i) == b
  }

  /** `blk` is what `fs` has in block `b`: the inodes there, or else exactly the block. */
  ghost predicate BlockIs(sup: Super, fs: Fs, b: nat, blk: Block)
    requires Shape(sup, fs) && InodesFit(sup)
  {
    && |blk| == sup.bsize && b < sup.size
    && (forall i: nat :: HasInode(sup, i, b) ==> GetInode(sup, blk, i) == fs.inodes[i])
    && ((forall i: nat :: !HasInode(sup, i, b)) ==> blk == fs.disk[b])
  }

  /** Outside the log, the disk `d` holds `fs`. */
  ghost predicate DiskIs(sup: Super, g: LogCrash.Geometry, fs: Fs, d: LogCrash.Disk)
    requires Shape(sup, fs) && InodesFit(sup)
  {
    |d| == sup.size && forall b: nat :: b < sup.size && g.Home(b) ==> BlockIs(sup, fs, b, Bytes(d[b]))
  }

  /** The stores of iupdate make the inode's block that of the file system with the new inode. */
  lemma IupdateStores(sup: Super, fs: Fs, i: nat, ino: Inode, blk: Block)
    requires Shape(sup, fs) && InodesFit(sup) && i < sup.ninodes && Encodable(sup, ino)
    requires BlockIs(sup, fs, InodeBlock(sup, i), blk)
    ensures Shape(sup, fs.(inodes := fs.inodes[i := ino]))
    ensures BlockIs(sup, fs.(inodes := fs.inodes[i := ino]), InodeBlock(sup, i), PutInode(sup, blk, i, ino))
  {
    hide MetaBelow, GetInode, PutInode, Encodable;
    assert |ino.addrs| == sup.ndirect + 1 by { EncodableShape(sup, ino); }
    var blk' := PutInode(sup, blk, i, ino);
    forall k: nat | HasInode(sup, k, InodeBlock(sup, i)) ensures GetInode(sup, blk', k) == fs.inodes[i := ino][k] {
      InodeRoundTrip(sup, blk, i, ino, k);
    }
    assert HasInode(sup, i, InodeBlock(sup, i));
  }

  /** An inode of a sound file system can be stored, its size being a uint32. */
  lemma InodeEncodable(sup: Super, fs: Fs, i: nat)
    requires Inv(sup, fs) && i < sup.ninodes && fs.inodes[i].size < W32
    ensures Encodable(sup, fs.inodes[i])
  {
    hide MetaBelow, BlockOk, ByteOk;
    forall j | 0 <= j <= sup.ndirect ensures fs.inodes[i].addrs[j] < W32 {
      assert RefOk(sup, fs, i, j);
    }
  }

  /** Whether one of the first `n` inodes is in block `b`. */
  predicate Hosts(sup: Super, b: nat, n: nat)
    requires sup.ipb > 0
  {
    n > 0 && (InodeBlock(sup, n - 1) == b || Hosts(sup, b, n - 1))
  }

  /** Block `b` with those of the first `n` inodes that are in it stored. */
  function PutInodes(sup: Super, blk: Block, b: nat, inodes: seq<Inode>, n: nat): (r: Block)
    requires InodesFit(sup) && |blk| == sup.bsize && n <= |inodes|
    requires forall k: nat :: k < n ==> Encodable(sup, inodes[k])
    ensures |r| == sup.bsize
  {
    if n == 0 then blk
    else
      var rest := PutInodes(sup, blk, b, inodes, n - 1);
      if InodeBlock(sup, n - 1) == b then PutInode(sup, rest, n - 1, inodes[n - 1]) else rest
  }

  lemma {:induction false} HostsOne(sup: Super, b: nat, n: nat)
    requires sup.ipb > 0
    ensures Hosts(sup, b, n) <==> exists i: nat :: i < n && InodeBlock(sup, i) == b
    decreases n
  {
    hide InodeBlock;
    if n > 0 {
      HostsOne(sup, b, n - 1);
      assert InodeBlock(sup, n - 1) == b ==> exists i: nat :: i < n && InodeBlock(sup, i) == b;
    }
  }

  lemma {:induction false} PutInodesGet(sup: Super, blk: Block, b: nat, inodes: seq<Inode>, n: nat, i: nat)
    requires InodesFit(sup) && |blk| == sup.bsize && n <= |inodes| && i < n && InodeBlock(sup, i) == b
    requires forall k: nat :: k < n ==> Encodable(sup, inodes[k])
    ensures GetInode(sup, PutInodes(sup, blk, b, inodes, n), i) == inodes[i]
    decreases n
  {
    hide GetInode, PutInode, Encodable, Quot;
    var rest := PutInodes(sup, blk, b, inodes, n - 1);
    if i < n - 1 {
      PutInodesGet(sup, blk, b, inodes, n - 1, i);
    }
    if InodeBlock(sup, n - 1) == b {
      InodeRoundTrip(sup, rest, n - 1, inodes[n - 1], i);
    }
  }

  /** What operations that leave `now` and `inodes` make of block `b`, which held `was` before them. */
  function BlockAfter(sup: Super, now: Block, inodes: seq<Inode>, b: nat, was: Block): (r: Block)
    requires InodesFit(sup) && |was| == |now| == sup.bsize && |inodes| == sup.ninodes
    requires forall k: nat :: k < sup.ninodes ==> Encodable(sup, inodes[k])
    ensures |r| == sup.bsize
  {
    if Hosts(sup, b, sup.ninodes) then PutInodes(sup, was, b, inodes, sup.ninodes) else now
  }

  lemma BlockAfterIs(sup: Super, fs: Fs, b: nat, was: Block)
    requires Shape(sup, fs) && InodesFit(sup) && |was| == sup.bsize && b < sup.size
    requires forall k: nat :: k < sup.ninodes ==> Encodable(sup, fs.inodes[k])
    ensures BlockIs(sup, fs, b, BlockAfter(sup, fs.disk[b], fs.inodes, b, was))
  {
    hide GetInode, PutInodes, Encodable, InodeBlock, Hosts, MetaBelow;
    HostsOne(sup, b, sup.ninodes);
    var blk := BlockAfter(sup, fs.disk[b], fs.inodes, b, was);
    forall i: nat | HasInode(sup, i, b) ensures GetInode(sup, blk, i) == fs.inodes[i] {
      PutInodesGet(sup, was, b, fs.inodes, sup.ninodes, i);
    }
    if Hosts(sup, b, sup.ninodes) {
      var i: nat :| i < sup.ninodes && InodeBlock(sup, i) == b;
      assert HasInode(sup, i, b);
    }
  }

  lemma EncodableShape(sup: Super, ino: Inode)
    requires Encodable(sup, ino)
    ensures |ino.addrs| == sup.ndirect + 1
  {
  }

  // ---------------------------------------------------------------- what a kernel finds on it

  /** The file system read off a disk; nothing is known of the owners. */
  function Mounted(sup: Super, d: LogCrash.Disk): (r: Fs)
    requires SuperOk(sup) && InodesFit(sup) && |d| == sup.size && forall b :: 0 <= b < |d| ==> 4 * |d[b]| == sup.bsize
    ensures Shape(sup, r)
  {
    hide GetInode, Bytes;
    Fs(seq(sup.size, b requires 0 <= b < sup.size => Bytes(d[b])),
       seq(sup.ninodes, i requires 0 <= i < sup.ninodes => InodeOn(sup, d, i)),
       seq(sup.size, b => FsInodes.Free))
  }

  /** ilock of an inode that is not in memory. */
  function InodeOn(sup: Super, d: LogCrash.Disk, i: nat): (r: Inode)
    requires SuperOk(sup) && InodesFit(sup) && |d| == sup.size && i < sup.ninodes
    requires forall b :: 0 <= b < |d| ==> 4 * |d[b]| == sup.bsize
    ensures |r.addrs| == sup.ndirect + 1
  {
    assert InodeBlock(sup, i) < sup.nmeta;
    GetInode(sup, Bytes(d[InodeBlock(sup, i)]), i)
  }

  /** The inodes read off a disk that holds `fs` are those of `fs`, and so are the blocks of the map and of the data. */
  lemma MountedParts(sup: Super, g: LogCrash.Geometry, fs: Fs, d: LogCrash.Disk)
    requires Layout(sup, g) && Shape(sup, fs) && LogCrash.DiskOk(g, d) && DiskIs(sup, g, fs, d)
    ensures Mounted(sup, d).inodes == fs.inodes
    ensures forall b: nat :: sup.nmeta <= b < sup.size ==> Mounted(sup, d).disk[b] == fs.disk[b]
    ensures forall b: nat :: b < sup.size ==>
              MapBlock(sup, b) < sup.size && Mounted(sup, d).disk[MapBlock(sup, b)] == fs.disk[MapBlock(sup, b)]
  {
    hide GetInode, Bytes, Quot;
    var m := Mounted(sup, d);
    forall i: nat | i < sup.ninodes ensures m.inodes[i] == fs.inodes[i] {
      assert InodeBlock(sup, i) < sup.nmeta && g.Home(InodeBlock(sup, i)) && HasInode(sup, i, InodeBlock(sup, i));
    }
    forall b: nat | sup.nmeta <= b < sup.size ensures m.disk[b] == fs.disk[b] {
      assert g.Home(b) && forall i: nat :: !HasInode(sup, i, b);
    }
    forall b: nat | b < sup.size
      ensures MapBlock(sup, b) < sup.size
              && m.disk[MapBlock(sup, b)] == fs.disk[MapBlock(sup, b)] {
      var x := MapBlock(sup, b);
      assert x < sup.nmeta && g.Home(x) && forall i: nat :: !HasInode(sup, i, x);
    }
  }

  /** A kernel that reads a disk holding `fs` finds a sound file system with the files of `fs`. */
  lemma MountedFiles(sup: Super, g: LogCrash.Geometry, fs: Fs, d: LogCrash.Disk)
    requires Layout(sup, g) && Inv(sup, fs) && Shape(sup, fs) && LogCrash.DiskOk(g, d) && DiskIs(sup, g, fs, d)
    ensures Inv(sup, Mounted(sup, d).(owner := fs.owner)) && FilesOf(sup, Mounted(sup, d)) == FilesOf(sup, fs)
  {
    hide Layout, DiskIs, Mounted, Inv, FilesOf, Content;
    LayoutParts(sup, g);
    MountedParts(sup, g, fs, d);
    var m := Mounted(sup, d);
    SameMapInv(sup, fs, m.(owner := fs.owner));
    forall k: nat | k < sup.ninodes ensures Content(sup, m, k) == Content(sup, fs, k) {
      UntouchedContent(sup, fs, m, k);
    }
  }

  lemma LayoutParts(sup: Super, g: LogCrash.Geometry)
    requires Layout(sup, g)
    ensures SuperOk(sup) && InodesFit(sup) && g.nblocks == sup.size && 4 * g.words == sup.bsize
  {
  }

  lemma SameMapInv(sup: Super, fs: Fs, fs': Fs)
    requires Inv(sup, fs) && Shape(sup, fs') && fs'.inodes == fs.inodes && fs'.owner == fs.owner
    requires forall b: nat :: sup.nmeta <= b < sup.size ==> fs'.disk[b] == fs.disk[b]
    requires forall b: nat :: b < sup.size ==>
               MapBlock(sup, b) < sup.size && fs'.disk[MapBlock(sup, b)] == fs.disk[MapBlock(sup, b)]
    ensures Inv(sup, fs')
  {
    hide MetaBelow, MapBlock, MapByte, MapBit, TestBit, Word;
    forall c: nat | c < sup.size
      ensures Mapped(sup, fs.disk, c) && Mapped(sup, fs'.disk, c) && Bit(sup, fs'.disk, c) == Bit(sup, fs.disk, c)
    {
      assert BlockOk(sup, fs, c);
    }
    hide Mapped, Bit;
    forall k: nat, q: nat | k < sup.ninodes && q < Places(sup) ensures Ref(sup, fs', k, q) == Ref(sup, fs, k, q) {
      IndirectOwned(sup, fs, k);
    }
    hide Ref;
    forall c: nat | c < sup.size ensures BlockOk(sup, fs', c) { assert BlockOk(sup, fs, c); }
    forall k: nat, q: nat | k < sup.ninodes && q < Places(sup)
      ensures RefOk(sup, fs', k, q) { assert RefOk(sup, fs, k, q); }
    forall k: nat, off: nat | k < sup.ninodes ensures ByteOk(sup, fs', k, off) { assert ByteOk(sup, fs, k, off); }
  }
}
