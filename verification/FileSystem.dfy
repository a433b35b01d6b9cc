/**
  The file system operations that change blocks and inodes in place: balloc, bfree, bmap, itrunc, readi,
  writei, and filewrite's loop over an inode.

  `disk` is the array of blocks as the buffer cache shows it, `logged` the blocks passed to log_write
  since begin_op.  A user source is the bytes readable from its address on; a user destination is how
  many bytes can be written there.
*/
module FileSystem {
  import opened Machine
  import opened FsLayout
  import opened FsInodes
  import opened FsContent

  // ---------------------------------------------------------------- the free map scan

  /** Bit `bi` of the free map block that covers `b` up to `b + BPB` is the bit of block `b + bi`. */
  lemma MapPlaceOf(sup: Super, b: nat, bi: nat)
    requires sup.bsize > 0 && Rest(b, MapBits(sup.bsize)) == 0 && bi < MapBits(sup.bsize)
    ensures MapBlock(sup, b + bi) == MapBlock(sup, b)
    ensures MapByte(sup, b + bi) == bi / 8 && MapBit(sup, b + bi) == bi % 8
  {
    var n := MapBits(sup.bsize);
    assert b == Quot(b, n) * n;
    DivModUnique(b + bi, n, Quot(b, n), bi);
  }

  lemma NextMapBlock(b: nat, n: nat)
    requires n > 0 && Rest(b, n) == 0
    ensures Rest(b + n, n) == 0
  {
    ModShift(b, 1, n);
  }

  // ---------------------------------------------------------------- a new file system

  lemma BlankDisk(sup: Super, disk: seq<Block>)
    requires SuperOk(sup) && |disk| == sup.size && forall c: nat :: c < sup.size ==> disk[c] == Zeros(sup.bsize)
    ensures forall c: nat :: c < sup.size ==> |disk[c]| == sup.bsize && Mapped(sup, disk, c) && !Bit(sup, disk, c)
  {
    hide MapByte, MapBit, TestBit;
    forall c: nat | c < sup.size ensures Mapped(sup, disk, c) && !Bit(sup, disk, c) {
      assert MapBlock(sup, c) < sup.nmeta;
      ZeroBits(MapBit(sup, c));
    }
  }

  lemma MarkNext(sup: Super, disk: seq<Block>, b: nat)
    requires SuperOk(sup) && |disk| == sup.size && b < sup.size
    requires forall c: nat :: c < sup.size ==>
               |disk[c]| == sup.bsize && Mapped(sup, disk, c) && (Bit(sup, disk, c) <==> c < b)
    ensures MapBlock(sup, b) < sup.size && Mapped(sup, disk, b)
    ensures var disk' := disk[MapBlock(sup, b) := MarkedBlock(sup, disk, b, true)];
            forall c: nat :: c < sup.size ==>
                |disk'[c]| == sup.bsize && Mapped(sup, disk', c) && (Bit(sup, disk', c) <==> c < b + 1)
  {
    hide MapBlock, MapByte, MapBit, TestBit, MarkedBlock;
    var disk' := disk[MapBlock(sup, b) := MarkedBlock(sup, disk, b, true)];
    forall c: nat | c < sup.size
      ensures |disk'[c]| == sup.bsize && Mapped(sup, disk', c)
              && (Bit(sup, disk', c) <==> c < b + 1) {
      MarkedBits(sup, disk, b, true, c);
    }
  }

  lemma FormattedInv(sup: Super, fs: Fs)
    requires SuperOk(sup) && |fs.disk| == |fs.owner| == sup.size && |fs.inodes| == sup.ninodes
    requires forall c: nat :: c < sup.size ==>
               |fs.disk[c]| == sup.bsize && Mapped(sup, fs.disk, c) && (Bit(sup, fs.disk, c) <==> c < sup.nmeta)
    requires forall c: nat :: c < sup.size ==> fs.owner[c] == if c < sup.nmeta then Meta else FsInodes.Free
    requires forall i: nat :: i < sup.ninodes ==>
               |fs.inodes[i].addrs| == sup.ndirect + 1 && fs.inodes[i].size == 0
                 && forall q :: 0 <= q <= sup.ndirect ==> fs.inodes[i].addrs[q] == 0
    ensures Inv(sup, fs) && forall i: nat :: i < sup.ninodes ==> Content(sup, fs, i) == []
  {
    hide MetaBelow, Mapped, Bit;
    forall i: nat, p: nat | i < sup.ninodes && p < Places(sup) ensures RefOk(sup, fs, i, p) {
      assert fs.inodes[i].addrs[sup.ndirect] == 0;
    }
    forall b: nat | b < sup.size ensures BlockOk(sup, fs, b) {}
    forall i: nat, off: nat | i < sup.ninodes ensures ByteOk(sup, fs, i, off) {}
  }

  // ---------------------------------------------------------------- what bmap does to one place

  ghost predicate Full(sup: Super, fs: Fs) {
    |fs.owner| == sup.size && forall c: nat :: c < sup.size ==> !fs.owner[c].Free?
  }

  /** The disk is full and file byte `o` of inode `i` has no block. */
  ghost predicate NoRoom(sup: Super, fs: Fs, i: nat, o: nat) {
    Full(sup, fs) && Shape(sup, fs) && i < sup.ninodes && !HasBlock(sup, fs, i, o)
  }

  /** writei stops after a whole block, or after all `n` bytes; a fault means that the source, of `avail` bytes, ends
      inside the very next piece. */
  predicate Stops(bs: nat, off: nat, n: nat, avail: nat, tot: nat, faulted: bool)
    requires bs > 0
  {
    && (tot == 0 || tot == n || Rest(off + tot, bs) == 0)
    && (faulted ==> tot <= avail < tot + Min(n - tot, bs - Rest(off + tot, bs)))
  }

  /** Why a chunk of `n1` bytes at `off` of a file of `size` bytes is refused. */
  predicate Refused(sup: Super, size: nat, off: nat, n1: nat) {
    off > size || off + n1 >= W32 || off + n1 > MaxFile(sup) * sup.bsize
  }

  /** From `fs` to `fs'`, place `p` of inode `i` was given a zeroed block if it had none and one was free;
      `addr` is what it holds now. */
  ghost predicate Grown(sup: Super, fs: Fs, fs': Fs, i: nat, p: nat, addr: nat) {
    && Inv(sup, fs) && Inv(sup, fs') && Extends(sup, fs, fs') && i < sup.ninodes && p < Places(sup)
    && Ref(sup, fs', i, p) == addr
    && (Ref(sup, fs, i, p) != 0 || addr == 0 ==> fs' == fs)
    && (addr == 0 ==> Full(sup, fs))
    && (addr != 0 ==> sup.nmeta <= addr < sup.size)
    && (Ref(sup, fs, i, p) == 0 && addr != 0 ==>
          fs.owner[addr].Free? && RefsAfter(sup, fs, fs', i, p, addr) && fs'.disk[addr] == Zeros(sup.bsize))
    && (forall k: nat :: k < sup.ninodes && k != i ==> fs'.inodes[k] == fs.inodes[k])
  }

  lemma GrownStays(sup: Super, fs: Fs, i: nat, p: nat)
    requires Inv(sup, fs) && i < sup.ninodes && p < Places(sup) && (Ref(sup, fs, i, p) != 0 || Full(sup, fs))
    ensures Grown(sup, fs, fs, i, p, Ref(sup, fs, i, p))
  {
    hide MetaBelow, Ref, Extends, Mapped, Bit;
    ExtendsSelf(sup, fs);
    assert RefOk(sup, fs, i, p);
    if Ref(sup, fs, i, p) != 0 {
      assert BlockOk(sup, fs, Ref(sup, fs, i, p));
    }
  }

  lemma GrownDirect(sup: Super, fs: Fs, i: nat, p: nat, b: nat)
    requires Inv(sup, fs) && i < sup.ninodes && p <= sup.ndirect && b < sup.size && fs.owner[b].Free?
    requires Ref(sup, fs, i, p) == 0
    ensures Mapped(sup, fs.disk, b) && Grown(sup, fs, LinkedDirect(sup, fs, i, p, b), i, p, b)
  {
    hide MetaBelow, Ref, Extends, Mapped, Bit, Allocated, WithAddr, RefOk, ByteOk, Zeros;
    assert BlockOk(sup, fs, b);
    AllocatedFacts(sup, fs, b);
    LinkedDirectRefs(sup, fs, i, p, b);
    var fs' := LinkedDirect(sup, fs, i, p, b);
    forall c: nat | c < sup.size && fs.owner[c].At? && fs.owner[c].place != sup.ndirect
      ensures fs'.disk[c] == fs.disk[c] {
      assert BlockOk(sup, fs, c);
    }
    hide BlockOk;
    LinkKeeps(sup, fs, fs', i, p, b);
  }

  lemma GrownIndirect(sup: Super, fs: Fs, i: nat, p: nat, b: nat)
    requires Inv(sup, fs) && i < sup.ninodes && sup.ndirect < p < Places(sup) && b < sup.size && fs.owner[b].Free?
    requires Ref(sup, fs, i, p) == 0 && fs.inodes[i].addrs[sup.ndirect] != 0
    ensures Mapped(sup, fs.disk, b) && sup.nmeta <= fs.inodes[i].addrs[sup.ndirect] < sup.size
    ensures |Allocated(sup, fs.disk, b)[fs.inodes[i].addrs[sup.ndirect]]| == sup.bsize
    ensures Grown(sup, fs, LinkedIndirect(sup, fs, i, p, b), i, p, b)
  {
    hide MetaBelow, Ref, Extends, Bit, Allocated, RefOk, ByteOk, PutWord, Zeros;
    assert BlockOk(sup, fs, b);
    AllocatedFacts(sup, fs, b);
    IndirectOwned(sup, fs, i);
    LinkedIndirectRefs(sup, fs, i, p, b);
    var fs', ind := LinkedIndirect(sup, fs, i, p, b), fs.inodes[i].addrs[sup.ndirect];
    forall c: nat | c < sup.size && fs.owner[c].At? && fs.owner[c].place != sup.ndirect
      ensures fs'.disk[c] == fs.disk[c] {
      assert BlockOk(sup, fs, c);
    }
    forall c: nat | c < sup.size
      ensures Mapped(sup, fs'.disk, c) && Bit(sup, fs'.disk, c) == (c == b || Bit(sup, fs.disk, c))
    {
      SameBit(sup, Allocated(sup, fs.disk, b), fs'.disk, ind, c);
    }
    hide BlockOk, Mapped;
    LinkKeeps(sup, fs, fs', i, p, b);
  }

  /** Changing a data block changes no bit of the free map. */
  lemma SameBit(sup: Super, d: seq<Block>, d': seq<Block>, x: nat, c: nat)
    requires SuperOk(sup) && c < sup.size && Mapped(sup, d, c) && sup.nmeta <= x < |d| == |d'|
    requires forall y: nat :: y < |d| && y != x ==> d'[y] == d[y]
    ensures Mapped(sup, d', c) && Bit(sup, d', c) == Bit(sup, d, c)
  {
    assert MapBlock(sup, c) < sup.nmeta;
  }

  // ---------------------------------------------------------------- every change is logged

  /** A block that operations log: of the free map, of the inodes, or a data block. */
  ghost predicate Loggable(sup: Super, b: nat)
    requires sup.bsize > 0 && sup.ipb > 0
  {
    IsMap(sup, b) || sup.nmeta <= b < sup.size || exists i: nat :: i < sup.ninodes && b == InodeBlock(sup, i)
  }

  /** Every block that differs is among those logged by then, and what was logged is loggable. */
  ghost predicate Covers(sup: Super, disk: seq<Block>, disk': seq<Block>, logged: set<nat>, logged': set<nat>) {
    && sup.bsize > 0 && sup.ipb > 0 && logged <= logged' && |disk'| == |disk|
    && (forall b: nat :: b < |disk| && b !in logged' ==> disk'[b] == disk[b])
    && (forall b: nat :: b in logged' && b !in logged ==> Loggable(sup, b))
  }

  lemma CoversSelf(sup: Super, disk: seq<Block>, logged: set<nat>)
    requires sup.bsize > 0 && sup.ipb > 0
    ensures Covers(sup, disk, disk, logged, logged)
  {
  }

  lemma CoversTrans(sup: Super, d0: seq<Block>, d1: seq<Block>, d2: seq<Block>, l0: set<nat>, l1: set<nat>,
                    l2: set<nat>)
    requires Covers(sup, d0, d1, l0, l1) && Covers(sup, d1, d2, l1, l2)
    ensures Covers(sup, d0, d2, l0, l2)
  {
    hide Loggable;
  }

  lemma CoversAllocated(sup: Super, disk: seq<Block>, b: nat, logged: set<nat>)
    requires SuperOk(sup) && Mapped(sup, disk, b) && sup.nmeta <= b < sup.size == |disk|
    ensures Covers(sup, disk, Allocated(sup, disk, b), logged, logged + {MapBlock(sup, b), b})
  {
    hide MapBlock, MarkedBlock, MetaBelow;
    MapIsMap(sup, b);
  }

  lemma CoversFreed(sup: Super, disk: seq<Block>, b: nat, logged: set<nat>)
    requires SuperOk(sup) && Mapped(sup, disk, b) && b < sup.size
    ensures Covers(sup, disk, Freed(sup, disk, b), logged, logged + {MapBlock(sup, b)})
  {
    hide MapBlock, MarkedBlock, MetaBelow;
    MapIsMap(sup, b);
  }

  /** One more data block changed and logged. */
  lemma CoversOne(sup: Super, d0: seq<Block>, d1: seq<Block>, b: nat, blk: Block, l0: set<nat>, l1: set<nat>)
    requires Covers(sup, d0, d1, l0, l1) && b < |d1| && sup.nmeta <= b < sup.size
    ensures Covers(sup, d0, d1[b := blk], l0, l1 + {b})
  {
    hide IsMap;
  }

  /** Seen as one transaction: every changed block is logged, and so is the inode block of every changed inode. */
  ghost predicate Transaction(sup: Super, fs: Fs, fs': Fs, logged: set<nat>, logged': set<nat>)
    requires sup.ipb > 0
  {
    && Covers(sup, fs.disk, fs'.disk, logged, logged') && |fs'.inodes| == |fs.inodes|
    && forall k: nat :: k < |fs.inodes| && fs'.inodes[k] != fs.inodes[k] ==> InodeBlock(sup, k) in logged'
  }

  /** No inode but `i` changed. */
  ghost predicate SameOthers(fs: Fs, fs': Fs, i: nat) {
    |fs'.inodes| == |fs.inodes| && forall k: nat :: k < |fs.inodes| && k != i ==> fs'.inodes[k] == fs.inodes[k]
  }

  /** Besides, every changed block is logged. */
  ghost predicate Local(sup: Super, fs: Fs, fs': Fs, i: nat, logged: set<nat>, logged': set<nat>) {
    Covers(sup, fs.disk, fs'.disk, logged, logged') && SameOthers(fs, fs', i)
  }

  lemma LocalBmap(sup: Super, fs0: Fs, fs1: Fs, fs2: Fs, i: nat, p: nat, addr: nat, l0: set<nat>, l1: set<nat>,
                  l2: set<nat>)
    requires Local(sup, fs0, fs1, i, l0, l1) && BmapDone(sup, fs1, fs2, i, p, addr)
    requires Covers(sup, fs1.disk, fs2.disk, l1, l2)
    ensures Local(sup, fs0, fs2, i, l0, l2)
  {
    hide MetaBelow, Extends, Ref, Covers;
    CoversTrans(sup, fs0.disk, fs1.disk, fs2.disk, l0, l1, l2);
    ExtendsInodes(sup, fs1, fs2);
  }

  lemma ExtendsInodes(sup: Super, fs: Fs, fs': Fs)
    requires Extends(sup, fs, fs')
    ensures |fs.inodes| == |fs'.inodes| == sup.ninodes
  {
  }

  lemma LocalChunk(sup: Super, fs0: Fs, fs1: Fs, fs2: Fs, i: nat, b: nat, blk: Block, l0: set<nat>, l1: set<nat>)
    requires Local(sup, fs0, fs1, i, l0, l1) && b < |fs1.disk| && fs2 == fs1.(disk := fs1.disk[b := blk])
    requires sup.nmeta <= b < sup.size
    ensures Local(sup, fs0, fs2, i, l0, l1 + {b})
  {
    hide Covers;
    CoversOne(sup, fs0.disk, fs1.disk, b, blk, l0, l1);
  }

  lemma LocalOthers(sup: Super, fs: Fs, fs': Fs, i: nat, logged: set<nat>, logged': set<nat>)
    requires Local(sup, fs, fs', i, logged, logged')
    ensures SameOthers(fs, fs', i)
  {
  }

  /** With the inode's own block logged too, it is a transaction. */
  lemma LocalLogged(sup: Super, fs: Fs, fs1: Fs, fs': Fs, i: nat, logged: set<nat>, logged1: set<nat>)
    requires sup.ipb > 0 && Local(sup, fs, fs1, i, logged, logged1) && fs'.disk == fs1.disk && SameOthers(fs1, fs', i)
    requires i < sup.ninodes
    ensures Transaction(sup, fs, fs', logged, logged1 + {InodeBlock(sup, i)})
  {
    hide InodeBlock, IsMap;
  }

  lemma TransactionSelf(sup: Super, fs: Fs, logged: set<nat>)
    requires SuperOk(sup)
    ensures Transaction(sup, fs, fs, logged, logged)
  {
    hide InodeBlock;
  }

  lemma TransactionTrans(sup: Super, fs0: Fs, fs1: Fs, fs2: Fs, l0: set<nat>, l1: set<nat>, l2: set<nat>)
    requires sup.ipb > 0 && Transaction(sup, fs0, fs1, l0, l1) && Transaction(sup, fs1, fs2, l1, l2)
    ensures Transaction(sup, fs0, fs2, l0, l2)
  {
    hide InodeBlock, Loggable;
  }

  // ---------------------------------------------------------------- what writei logs

  /** `x` is a block of the free map. */
  ghost predicate IsMap(sup: Super, x: nat)
    requires sup.bsize > 0
  {
    exists b: nat :: b < sup.size && x == MapBlock(sup, b)
  }

  function Present(addr: nat): set<nat> {
    if addr == 0 then {} else {addr}
  }

  function IndirectOf(sup: Super, fs: Fs, i: nat): nat
    requires Shape(sup, fs) && i < sup.ninodes
  {
    fs.inodes[i].addrs[sup.ndirect]
  }

  /** What one bmap may log: the block, the indirect block, and free map blocks `maps`, at most one for
      each block it allocated. */
  ghost predicate BmapLogs(sup: Super, fs: Fs, fs': Fs, i: nat, p: nat, addr: nat, logged: set<nat>, logged': set<nat>,
                          maps: set<nat>)
    requires Shape(sup, fs) && Shape(sup, fs') && i < sup.ninodes && p < Places(sup)
  {
    var ind, ind' := IndirectOf(sup, fs, i), IndirectOf(sup, fs', i);
    && logged <= logged' <= logged + maps + Present(addr) + Present(ind')
    && (forall x :: x in maps ==> IsMap(sup, x))
    && |maps| <= (if Ref(sup, fs, i, p) == 0 && addr != 0 then 1 else 0) + (if ind == 0 && ind' != 0 then 1 else 0)
    && (ind != 0 ==> ind' == ind)
    && (Ref(sup, fs, i, p) != 0 ==> fs' == fs && logged' == logged)
  }

  /** Everything logged since `logged0` is one of the data blocks `touched`, a free map block in `maps`, or
      the indirect block. */
  ghost predicate LogsOnly(sup: Super, logged0: set<nat>, logged: set<nat>, touched: set<nat>, maps: set<nat>, ind: nat)
    requires sup.bsize > 0
  {
    && logged0 <= logged <= logged0 + touched + maps + Present(ind)
    && (forall x :: x in maps ==> IsMap(sup, x))
  }

  function Unaligned(off: nat, bs: nat): nat
    requires bs > 0
  {
    if Rest(off, bs) != 0 then 1 else 0
  }

  /** writei's loop after `t` rounds: one data block a round, and an unaligned first round allocates none. */
  ghost predicate Rounds(sup: Super, off: nat, n: nat, tot: nat, t: nat, touched: set<nat>, maps: set<nat>, ind0: nat,
                         ind: nat)
    requires sup.bsize > 0
  {
    && |touched| <= t
    && |maps| <= t - (if t > 0 then Unaligned(off, sup.bsize) else 0) + (if ind0 == 0 && ind != 0 then 1 else 0)
    && t <= Span(off, n, sup.bsize)
    && (t > 0 && tot < n ==> Quot(off + tot, sup.bsize) == Quot(off, sup.bsize) + t)
  }

  /** The blocks one writei of `n` bytes at `off` may log, the inode's own block aside. */
  ghost predicate Spent(sup: Super, off: nat, n: nat, logged0: set<nat>, logged: set<nat>, touched: set<nat>,
                        maps: set<nat>, ind: nat)
    requires sup.bsize > 0
  {
    && LogsOnly(sup, logged0, logged, touched, maps, ind)
    && |touched| <= Span(off, n, sup.bsize)
    && |maps| <= Span(off, n, sup.bsize) - (if n > 0 then Unaligned(off, sup.bsize) else 0) + 1
  }

  lemma UnionSize(a: set<nat>, b: set<nat>)
    ensures |a + b| <= |a| + |b|
  {
    assert |a + b| == |a| + |b - a|;
    assert b == (b - a) + (b * a);
  }

  lemma RoundsEnd(sup: Super, off: nat, n: nat, tot: nat, t: nat, touched: set<nat>, maps: set<nat>, ind0: nat,
                  ind: nat, logged0: set<nat>, logged: set<nat>)
    requires sup.bsize > 0 && Rounds(sup, off, n, tot, t, touched, maps, ind0, ind)
             && LogsOnly(sup, logged0, logged, touched, maps, ind)
    ensures Spent(sup, off, n, logged0, logged, touched, maps, ind)
  {
    hide Quot, Rest, LogsOnly;
    if n > 0 && t == 0 {
      SpanPositive(off, n, sup.bsize);
    }
  }

  lemma SpanPositive(off: nat, n: nat, bs: nat)
    requires bs > 0 && n > 0
    ensures Span(off, n, bs) >= 1
  {
    QuotMonotone(off, off + n - 1, bs);
  }

  /** One more bmap, whether or not it found a block: the sets grow by at most what it allocated. */
  lemma LogsMore(sup: Super, fs: Fs, fs': Fs, i: nat, p: nat, addr: nat, logged0: set<nat>, logged: set<nat>,
                 logged': set<nat>,
                 touched: set<nat>, maps: set<nat>, maps': set<nat>)
    requires Shape(sup, fs) && Shape(sup, fs') && i < sup.ninodes && p < Places(sup)
    requires LogsOnly(sup, logged0, logged, touched, maps, IndirectOf(sup, fs, i))
    requires BmapLogs(sup, fs, fs', i, p, addr, logged, logged', maps')
    ensures LogsOnly(sup, logged0, logged' + Present(addr), touched + Present(addr), maps + maps',
            IndirectOf(sup, fs', i))
    ensures LogsOnly(sup, logged0, logged', touched + Present(addr), maps + maps', IndirectOf(sup, fs', i))
    ensures var ind, ind' := IndirectOf(sup, fs, i), IndirectOf(sup, fs', i);
            && |touched + Present(addr)| <= |touched| + 1 && (ind != 0 ==> ind' == ind)
            && |maps + maps'| <= |maps| + (if Ref(sup, fs, i, p) == 0 && addr != 0 then 1 else 0)
                                 + (if ind == 0 && ind' != 0 then 1 else 0)
  {
    hide Shape, Ref, IsMap;
    UnionSize(touched, Present(addr));
    UnionSize(maps, maps');
  }

  /** The round behind it: `made` says whether bmap allocated the data block. */
  lemma RoundsMore(sup: Super, off: nat, n: nat, tot: nat, t: nat, touched: set<nat>, maps: set<nat>, ind0: nat,
                   ind: nat,
                   touched': set<nat>, maps': set<nat>, ind': nat, m: nat, made: bool)
    requires sup.bsize > 0 && Rounds(sup, off, n, tot, t, touched, maps, ind0, ind) && tot < n && (t == 0 ==> tot == 0)
    requires |touched'| <= |touched| + 1
             && |maps'| <= |maps| + (if made then 1 else 0) + (if ind == 0 && ind' != 0 then 1 else 0)
    requires (ind != 0 ==> ind' == ind) && (ind0 != 0 ==> ind == ind0) && (made && t == 0 ==> Rest(off, sup.bsize) == 0)
    requires m == Min(n - tot, sup.bsize - Rest(off + tot, sup.bsize))
    ensures Rounds(sup, off, n, tot + m, t + 1, touched', maps', ind0, ind')
    ensures ind0 != 0 ==> ind' == ind0
  {
    hide Quot, Rest;
    QuotMonotone(off + tot, off + n - 1, sup.bsize);
    BlockEnd(off + tot, sup.bsize);
  }

  class FileSystem {
    const sup: Super
    var disk: seq<Block>
    var inodes: seq<Inode>
    var dinodes: seq<Inode>       // the inodes as iupdate last wrote them
    var logged: set<nat>
    ghost var owner: seq<Owner>

    ghost function Snap(): Fs
      reads this
    {
      Fs(disk, inodes, owner)
    }

    ghost predicate Valid()
      reads this
    {
      Inv(sup, Snap())
    }

    /** A freshly made file system: the metadata blocks are marked in use, all inodes are empty. */
    constructor (sp: Super)
      requires SuperOk(sp)
      ensures Valid() && sup == sp && dinodes == inodes && |dinodes| == sp.ninodes
              && forall i: nat :: i < sp.ninodes ==> Content(sp, Snap(), i) == []
    {
      sup := sp;
      disk := seq(sp.size, _ => Zeros(sp.bsize));
      inodes := seq(sp.ninodes, _ => Inode(seq(sp.ndirect + 1, _ => 0), 0));
      dinodes := seq(sp.ninodes, _ => Inode(seq(sp.ndirect + 1, _ => 0), 0));
      owner := seq(sp.size, b => if b < sp.nmeta then Meta else FsInodes.Free);
      logged := {};
      new;
      hide MapBlock, MapByte, MapBit, TestBit, MarkedBlock, Zeros;
      var b := 0;
      BlankDisk(sup, disk);
      ghost var made, hands := inodes, owner;
      while b < sup.nmeta
        invariant b <= sup.nmeta && |disk| == sup.size && inodes == dinodes == made && owner == hands
        invariant forall c: nat :: c < sup.size ==>
                    |disk[c]| == sup.bsize && Mapped(sup, disk, c) && (Bit(sup, disk, c) <==> c < b)
      {
        MarkNext(sup, disk, b);
        disk := disk[MapBlock(sup, b) := MarkedBlock(sup, disk, b, true)];
        b := b + 1;
      }
      FormattedInv(sup, Snap());
    }

    /** The file system that a kernel finds on a disk. */
    constructor Load(sp: Super, blocks: seq<Block>, found: seq<Inode>, ghost hands: seq<Owner>)
      requires Inv(sp, Fs(blocks, found, hands))
      ensures sup == sp && Snap() == Fs(blocks, found, hands) && dinodes == inodes
    {
      sup := sp;
      disk, inodes, dinodes, owner := blocks, found, found, hands;
      logged := {};
    }

    /** Allocates the lowest free block and zeroes it; 0 exactly when every block is in use. */
    method Balloc() returns (r: nat)
      requires Valid()
      modifies this`disk, this`logged
      ensures r == 0 ==> disk == old(disk) && logged == old(logged)
      ensures r == 0 ==> Full(sup, Snap())
      ensures r != 0 ==> sup.nmeta <= r < sup.size && owner[r].Free? && forall c: nat :: c < r ==> !owner[c].Free?
      ensures r != 0 ==> Mapped(sup, old(disk), r) && disk == Allocated(sup, old(disk), r)
      ensures r != 0 ==> logged == old(logged) + {MapBlock(sup, r), r}
    {
      assert MapBits(sup.bsize) > 0 && Rest(0, MapBits(sup.bsize)) == 0;
      hide MapBlock, MapByte, MapBit, TestBit, PutBit, Ref, RefOk, ByteOk, Rest, MapBits;
      var b := 0;
      while b < sup.size
        invariant Valid() && disk == old(disk) && logged == old(logged)
        invariant sup.bsize > 0 && MapBits(sup.bsize) > 0 && Rest(b, MapBits(sup.bsize)) == 0
        invariant forall c: nat :: c < b && c < sup.size ==> !owner[c].Free?
      {
        assert BlockOk(sup, Snap(), b);
        var blk := disk[MapBlock(sup, b)];
        var bi := 0;
        while bi < MapBits(sup.bsize) && b + bi < sup.size
          invariant Valid() && disk == old(disk) && logged == old(logged) && 0 <= bi <= MapBits(sup.bsize)
          invariant forall c: nat :: c < b + bi && c < sup.size ==> !owner[c].Free?
        {
          MapPlaceOf(sup, b, bi);
          assert BlockOk(sup, Snap(), b + bi);
          if !TestBit(blk[bi / 8] as int, bi % 8) {
            PutBitByte(blk[bi / 8], bi % 8, true);
            blk := blk[bi / 8 := PutBit(blk[bi / 8] as int, bi % 8, true) as byte];
            disk := disk[MapBlock(sup, b) := blk];
            logged := logged + {MapBlock(sup, b)};
            disk := disk[b + bi := Zeros(sup.bsize)];
            logged := logged + {b + bi};
            return b + bi;
          }
          bi := bi + 1;
        }
        NextMapBlock(b, MapBits(sup.bsize));
        b := b + MapBits(sup.bsize);
      }
      return 0;
    }

    /** False is the panic "freeing free block". */
    method Bfree(b: nat) returns (ok: bool)
      requires Mapped(sup, disk, b)
      modifies this`disk, this`logged
      ensures ok == Bit(sup, old(disk), b)
      ensures !ok ==> disk == old(disk) && logged == old(logged)
      ensures ok ==> disk == Freed(sup, old(disk), b) && logged == old(logged) + {MapBlock(sup, b)}
    {
      var blk := disk[MapBlock(sup, b)];
      var bi := Rest(b, MapBits(sup.bsize));
      if !TestBit(blk[bi / 8] as int, bi % 8) {
        return false;
      }
      PutBitByte(blk[bi / 8], bi % 8, false);
      blk := blk[bi / 8 := PutBit(blk[bi / 8] as int, bi % 8, false) as byte];
      disk := disk[MapBlock(sup, b) := blk];
      logged := logged + {MapBlock(sup, b)};
      return true;
    }

    /** The part of bmap for ip->addrs[p]: the direct places and the indirect pointer. */
    method DirectBlock(i: nat, p: nat) returns (addr: nat)
      requires Valid() && i < sup.ninodes && p <= sup.ndirect
      modifies this`disk, this`inodes, this`logged, this`owner
      ensures Grown(sup, old(Snap()), Snap(), i, p, addr)
      ensures logged == if Snap() == old(Snap()) then old(logged) else old(logged) + {MapBlock(sup, addr), addr}
      ensures Covers(sup, old(disk), disk, old(logged), logged)
    {
      hide Inv, Grown, MetaBelow, Allocated, MapBlock, Covers;
      ghost var fs := Snap();
      assert Shape(sup, fs) by { ValidShape(sup, fs); }
      CoversSelf(sup, disk, logged);
      addr := inodes[i].addrs[p];
      if addr == 0 {
        addr := Balloc();
        if addr == 0 {
          GrownStays(sup, fs, i, p);
          return;
        }
        GrownDirect(sup, fs, i, p, addr);
        CoversAllocated(sup, fs.disk, addr, old(logged));
        inodes := inodes[i := inodes[i].(addrs := inodes[i].addrs[p := addr])];
        owner := owner[addr := At(i, p)];
        assert Snap() == LinkedDirect(sup, fs, i, p, addr);
        assert Snap().owner[addr] != fs.owner[addr];
      } else {
        GrownStays(sup, fs, i, p);
      }
    }

    /** The part of bmap for word `j` of the indirect block. */
    method IndirectBlock(i: nat, j: nat) returns (addr: nat)
      requires Valid() && i < sup.ninodes && j < sup.bsize / 4 && |inodes| == sup.ninodes
      requires |inodes[i].addrs| == sup.ndirect + 1 && inodes[i].addrs[sup.ndirect] != 0
      modifies this`disk, this`logged, this`owner
      ensures Grown(sup, old(Snap()), Snap(), i, sup.ndirect + 1 + j, addr)
      ensures logged == if Snap() == old(Snap()) then old(logged)
                        else old(logged) + {MapBlock(sup, addr), addr, inodes[i].addrs[sup.ndirect]}
      ensures Covers(sup, old(disk), disk, old(logged), logged)
    {
      hide Inv, Grown, MetaBelow, Allocated, MapBlock, Word, PutWord, Covers;
      ghost var fs, p := Snap(), sup.ndirect + 1 + j;
      assert Shape(sup, fs) by { ValidShape(sup, fs); }
      CoversSelf(sup, disk, logged);
      var ind := inodes[i].addrs[sup.ndirect];
      IndirectOwned(sup, fs, i);
      addr := Word(disk[ind], j);
      if addr == 0 {
        addr := Balloc();
        if addr == 0 {
          GrownStays(sup, fs, i, p);
          return;
        }
        GrownIndirect(sup, fs, i, p, addr);
        CoversAllocated(sup, fs.disk, addr, old(logged));
        CoversOne(sup, fs.disk, disk, ind, PutWord(disk[ind], j, addr), old(logged), logged);
        disk := disk[ind := PutWord(disk[ind], j, addr)];
        logged := logged + {ind};
        owner := owner[addr := At(i, p)];
        assert Snap() == LinkedIndirect(sup, fs, i, p, addr);
        assert Snap().owner[addr] != fs.owner[addr];
      } else {
        GrownStays(sup, fs, i, p);
      }
    }

    /** The block behind file block `bn`, allocated (zeroed) if there was none; 0 exactly when one was
        needed and the disk is full.  No inode loses anything. */
    method Bmap(i: nat, bn: nat) returns (addr: nat, ghost maps: set<nat>)
      requires Valid() && i < sup.ninodes && bn < MaxFile(sup)
      modifies this`disk, this`inodes, this`logged, this`owner
      ensures Valid() && BmapDone(sup, old(Snap()), Snap(), i, DataPlace(sup, bn), addr)
      ensures BmapLogs(sup, old(Snap()), Snap(), i, DataPlace(sup, bn), addr, old(logged), logged, maps)
      ensures Covers(sup, old(disk), disk, old(logged), logged)
    {
      hide Inv, MetaBelow, MapBlock, Grown, BmapDone, BmapLogs, Covers;
      ghost var fs := Snap();
      if bn < sup.ndirect {
        addr := DirectBlock(i, bn);
        maps := BmapDirect(sup, fs, Snap(), i, bn, addr, old(logged), logged);
        return;
      }
      var ind := DirectBlock(i, sup.ndirect);
      ghost var fs1, logged1 := Snap(), logged;
      if ind == 0 {
        maps := BmapNoIndirect(sup, fs, Snap(), i, DataPlace(sup, bn), old(logged));
        return 0, maps;
      }
      assert Inv(sup, fs1) && |inodes| == sup.ninodes && |inodes[i].addrs| == sup.ndirect + 1
             && inodes[i].addrs[sup.ndirect] == ind by {
        GrownShape(sup, fs, fs1, i, ind);
      }
      addr := IndirectBlock(i, bn - sup.ndirect);
      maps := BmapIndirect(sup, fs, fs1, Snap(), i, DataPlace(sup, bn), ind, addr, old(logged), logged1, logged);
      CoversTrans(sup, fs.disk, fs1.disk, disk, old(logged), logged1, logged);
    }

    /** Copies the inode to its block, which is logged. */
    method Iupdate(i: nat)
      requires i < sup.ninodes == |inodes| == |dinodes| && sup.ipb > 0
      modifies this`dinodes, this`logged
      ensures dinodes == old(dinodes)[i := inodes[i]] && logged == old(logged) + {InodeBlock(sup, i)}
    {
      dinodes := dinodes[i := inodes[i]];
      logged := logged + {InodeBlock(sup, i)};
    }

    /** Writes `n` bytes at `off`.  Without a fault the file becomes the old one with the first `r` bytes of
        `src` spliced in, and `r` is `n` unless the disk is full and there is no block for the next byte; a
        faulting copyin may besides have torn the chunk it was copying.  Other inodes keep their contents. */
    method WriteI(i: nat, src: seq<byte>, torn: nat, off: nat, n: nat)
      returns (r: int, faulted: bool, ghost touched: set<nat>, ghost maps: set<nat>)
      requires Valid() && i < sup.ninodes == |dinodes| && off < W32 && n < W32
      modifies this`disk, this`inodes, this`dinodes, this`logged, this`owner
      ensures Valid() && |dinodes| == sup.ninodes
      ensures r == -1 <==> Refused(sup, old(inodes)[i].size, off, n)
      ensures r != -1 ==> 0 <= r && Stops(sup.bsize, off, n, |src|, r, faulted)
      ensures r == -1 ==> Snap() == old(Snap()) && logged == old(logged) && dinodes == old(dinodes) && !faulted
      ensures r != -1 ==>
        && 0 <= r <= n && r <= |src| && dinodes == old(dinodes)[i := inodes[i]]
        && (forall k: nat :: k < sup.ninodes && k != i ==> Content(sup, Snap(), k) == Content(sup, old(Snap()), k))
        && var exact := Splice(Content(sup, old(Snap()), i), off, src[..r]);
           if faulted then |src| < n && Torn(Content(sup, Snap(), i), exact, off + r, off + n)
           else Content(sup, Snap(), i) == exact && (r == n || NoRoom(sup, Snap(), i, off + r))
      ensures r != -1 ==>
        Spent(sup, off, n, old(logged) + {InodeBlock(sup, i)}, logged, touched, maps, IndirectOf(sup, Snap(), i))
      ensures !faulted ==> Transaction(sup, old(Snap()), Snap(), old(logged), logged)
      ensures |inodes| == sup.ninodes && forall k: nat :: k < sup.ninodes && k != i ==> inodes[k] == old(inodes)[k]
    {
      hide Inv, MetaBelow, Ref, Quot, Rest, Writing, Met, Written, Wrote, BmapDone, BmapLogs, Spent, Spliced, Splice,
        Torn, Content, Full,
        DataPlace, InodeBlock, Covers, Transaction, Shape, SuperOk, MaxFile, Places, Stops, NoRoom;
      faulted, touched, maps := false, {}, {};
      ghost var w := Call(sup, Snap(), i, off, src, n, logged);
      ValidShape(sup, w.fs);
      ShapeSizes(sup, w.fs);
      if off > inodes[i].size || off + n >= W32 || off + n > MaxFile(sup) * sup.bsize {
        TransactionSelf(sup, w.fs, logged);
        return -1, false, {}, {};
      }
      var tot, end := 0, off;
      ghost var t, stopped := 0, false;
      WriteStarts(w);
      while tot < n
        invariant tot <= n && end == off + tot && tot <= |src| && !faulted && !stopped && dinodes == old(dinodes)
        invariant Writing(w, Snap(), logged, tot, t, touched, maps)
      {
        ghost var fs1, logged1 := Snap(), logged;
        WritingInv(w, fs1, logged, tot, t, touched, maps);
        var addr, newMaps := Bmap(i, Quot(end, sup.bsize));
        ghost var fs2, logged2 := Snap(), logged;
        ValidShape(sup, fs2);
        WriteMapped(w, fs1, fs2, tot, t, addr, logged1, logged, touched, maps, newMaps);
        maps, touched := maps + newMaps, touched + Present(addr);
        if addr == 0 {
          stopped := true;
          break;
        }
        MetBlock(w, fs2, logged, tot, t, addr, touched, maps);
        var m := Min(n - tot, sup.bsize - Rest(end, sup.bsize));
        if tot + m > |src| {
          var part := src[tot..tot + Min(torn, |src| - tot)];
          disk := disk[addr := Spliced(disk[addr], Rest(end, sup.bsize), part)];
          faulted, stopped := true, true;
          WriteFaults(w, fs2, Snap(), logged, tot, t, addr, touched, maps, part);
          break;
        }
        disk := disk[addr := Spliced(disk[addr], Rest(end, sup.bsize), src[tot..tot + m])];
        logged := logged + {addr};
        WriteNext(w, fs2, Snap(), logged2, tot, t, addr, touched, maps, m);
        tot, end, t := tot + m, end + m, t + 1;
      }
      if !stopped {
        WriteEnds(w, Snap(), logged, tot, t, touched, maps);
      }
      ghost var fs3 := Snap();
      WroteShape(w, fs3, logged, tot, faulted, touched, maps);
      if end > inodes[i].size {
        inodes := inodes[i := inodes[i].(size := end)];
      }
      WriteDone(w, fs3, Snap(), logged, tot, faulted, touched, maps);
      Iupdate(i);
      return tot, faulted, touched, maps;
    }

    /** Reads up to `n` bytes at `off` into a destination with `room` bytes: exactly that slice of the file,
        nothing changed, and -1 exactly when the slice does not fit. */
    method ReadI(i: nat, off: nat, n: nat, room: nat) returns (r: int, out: seq<byte>)
      requires Valid() && i < sup.ninodes && off < W32 && n < W32
      modifies this`disk, this`inodes, this`logged, this`owner
      ensures Snap() == old(Snap()) && logged == old(logged) && Valid()
      ensures var size := inodes[i].size;
              if off > size || off + n >= W32 then r == 0 && out == []
              else
                var len := Min(n, size - off);
                if len <= room then r == len && out == Content(sup, Snap(), i)[off..off + len] else r == -1
    {
      hide Inv, MetaBelow, Ref, Quot, Rest, BmapDone, BmapLogs, Content, ByteAt, MapBlock;
      ghost var fs := Snap();
      ValidShape(sup, fs);
      if off > inodes[i].size || off + n >= W32 {
        return 0, [];
      }
      var len := n;
      if off + n > inodes[i].size {
        len := inodes[i].size - off;
      }
      var tot, at := 0, off;
      out := [];
      while tot < len
        invariant tot <= len && tot <= room && at == off + tot && Snap() == fs && logged == old(logged)
        invariant out == Content(sup, fs, i)[off..off + tot]
      {
        var m := Min(len - tot, sup.bsize - Rest(at, sup.bsize));
        ReadChunk(sup, fs, i, at, m);
        ghost var logged1 := logged;
        var addr, maps := Bmap(i, Quot(at, sup.bsize));
        ValidShape(sup, Snap());
        BmapFound(sup, fs, Snap(), i, DataPlace(sup, Quot(at, sup.bsize)), addr, logged1, logged, maps);
        if addr == 0 {
          break;
        }
        if tot + m > room {
          return -1, out;
        }
        var chunk := disk[addr][Rest(at, sup.bsize)..Rest(at, sup.bsize) + m];
        assert chunk == Content(sup, fs, i)[at..at + m];
        SlicesMeet(Content(sup, fs, i), off, at, at + m);
        out := out + chunk;
        tot, at := tot + m, at + m;
      }
      return tot, out;
    }

    /** bfree of the block at place `p` of inode `i`; the place itself is left stale. */
    method FreePlace(i: nat, p: nat, b: nat, ghost lo: nat, ghost hi: nat, ghost lo': nat, ghost hi': nat)
      returns (ok: bool)
      requires InvBut(sup, Snap(), i, lo, hi) && i < sup.ninodes && p < Places(sup)
      requires Adds(lo, hi, p, lo', hi') && !(lo <= sup.ndirect < hi) && Ref(sup, Snap(), i, p) == b != 0
      modifies this`disk, this`logged, this`owner
      ensures ok && InvBut(sup, Snap(), i, lo', hi') && Trimmed(sup, old(Snap()), Snap(), i)
      ensures Covers(sup, old(disk), disk, old(logged), logged)
    {
      hide InvBut, MetaBelow, Ref, Freed, Mapped, Bit, MapBlock, Covers;
      ghost var fs := Snap();
      FreeKeeps(sup, fs, i, p, lo, hi, lo', hi');
      FreedTrims(sup, fs, i, p, lo, hi);
      CoversFreed(sup, disk, b, logged);
      ok := Bfree(b);
      owner := owner[b := Free];
    }

    /** The direct part of itrunc. */
    method FreeDirect(i: nat) returns (ok: bool)
      requires InvBut(sup, Snap(), i, 0, 0) && i < sup.ninodes
      modifies this`disk, this`inodes, this`logged, this`owner
      ensures ok && InvBut(sup, Snap(), i, 0, 0) && Trimmed(sup, old(Snap()), Snap(), i)
      ensures forall q: nat :: q < sup.ndirect ==> inodes[i].addrs[q] == 0
      ensures inodes[i].addrs[sup.ndirect] == old(inodes)[i].addrs[sup.ndirect]
      ensures Covers(sup, old(disk), disk, old(logged), logged)
    {
      hide InvBut, MetaBelow, Trimmed, Covers;
      ghost var fs := Snap();
      ButShape(sup, fs, i, 0, 0);
      CoversSelf(sup, disk, logged);
      TrimmedSelf(sup, fs, i);
      var p := 0;
      ok := true;
      while p < sup.ndirect
        invariant p <= sup.ndirect && ok && Shape(sup, Snap())
        invariant InvBut(sup, Snap(), i, 0, 0) && Trimmed(sup, fs, Snap(), i)
        invariant forall q: nat :: q < p ==> inodes[i].addrs[q] == 0
        invariant inodes[i].addrs[sup.ndirect] == fs.inodes[i].addrs[sup.ndirect]
                  && Covers(sup, fs.disk, disk, old(logged), logged)
      {
        if inodes[i].addrs[p] != 0 {
          ghost var fs1, logged1 := Snap(), logged;
          ok := FreePlace(i, p, inodes[i].addrs[p], 0, 0, p, p + 1);
          CoversTrans(sup, fs.disk, fs1.disk, disk, old(logged), logged1, logged);
          ghost var fs2 := Snap();
          ButShape(sup, fs2, i, p, p + 1);
          ClearKeeps(sup, fs2, i, p, p + 1);
          inodes := inodes[i := inodes[i].(addrs := inodes[i].addrs[p := 0])];
          TrimmedTrans(sup, fs, fs1, fs2, Snap(), i);
          ButShape(sup, Snap(), i, 0, 0);
        }
        p := p + 1;
      }
    }

    /** The indirect part of itrunc: every block the indirect block lists, then the indirect block. */
    method FreeIndirect(i: nat) returns (ok: bool)
      requires InvBut(sup, Snap(), i, 0, 0) && i < sup.ninodes == |inodes| && |inodes[i].addrs| == sup.ndirect + 1
      requires inodes[i].addrs[sup.ndirect] != 0
      modifies this`disk, this`inodes, this`logged, this`owner
      ensures ok && InvBut(sup, Snap(), i, 0, 0) && Trimmed(sup, old(Snap()), Snap(), i)
      ensures inodes[i].addrs == old(inodes)[i].addrs[sup.ndirect := 0]
      ensures Covers(sup, old(disk), disk, old(logged), logged)
    {
      hide InvBut, MetaBelow, Trimmed, Word, Ref, Covers;
      ghost var fs := Snap();
      ButShape(sup, fs, i, 0, 0);
      CoversSelf(sup, disk, logged);
      TrimmedSelf(sup, fs, i);
      var ind := inodes[i].addrs[sup.ndirect];
      IndirectThere(sup, fs, i);
      var a := disk[ind];
      var j, lo := 0, sup.ndirect + 1;
      ok := true;
      StaleFrom(sup, fs, i, lo);
      while j < sup.bsize / 4
        invariant j <= sup.bsize / 4 && ok && Shape(sup, Snap()) && inodes == fs.inodes
        invariant InvBut(sup, Snap(), i, lo, lo + j) && Trimmed(sup, fs, Snap(), i) && disk[ind] == a
        invariant Covers(sup, fs.disk, disk, old(logged), logged)
      {
        ghost var fs1, logged1 := Snap(), logged;
        RefIsWord(sup, fs1, i, j);
        if Word(a, j) != 0 {
          ok := FreePlace(i, lo + j, Word(a, j), lo, lo + j, lo, lo + j + 1);
          CoversTrans(sup, fs.disk, fs1.disk, disk, old(logged), logged1, logged);
          ButShape(sup, Snap(), i, lo, lo + j + 1);
          TrimmedTrans(sup, fs, fs1, Snap(), Snap(), i);
          TrimmedBlock(sup, fs, Snap(), i, ind);
        } else {
          SkipKeeps(sup, fs1, i, lo, lo + j);
        }
        j := j + 1;
      }
      ghost var fs1, logged1 := Snap(), logged;
      RefIsPointer(sup, fs1, i);
      ok := FreePlace(i, sup.ndirect, ind, lo, lo + j, sup.ndirect, lo + j);
      CoversTrans(sup, fs.disk, fs1.disk, disk, old(logged), logged1, logged);
      ghost var fs2 := Snap();
      ButShape(sup, fs2, i, sup.ndirect, lo + j);
      ClearKeeps(sup, fs2, i, sup.ndirect, lo + j);
      inodes := inodes[i := inodes[i].(addrs := inodes[i].addrs[sup.ndirect := 0])];
      TrimmedTrans(sup, fs, fs1, fs2, Snap(), i);
    }

    /** Empties the file: exactly the blocks the inode owned become free (bfree does not panic), and no
        other inode notices. */
    method ITrunc(i: nat) returns (ok: bool)
      requires Valid() && i < sup.ninodes == |dinodes|
      modifies this`disk, this`inodes, this`dinodes, this`logged, this`owner
      ensures ok && Valid() && Content(sup, Snap(), i) == []
      ensures forall p: nat :: p < Places(sup) ==> Ref(sup, Snap(), i, p) == 0
      ensures forall c: nat :: c < sup.size ==>
                owner[c] == if old(owner)[c].At? && old(owner)[c].ino == i then Free else old(owner)[c]
      ensures forall k: nat :: k < sup.ninodes && k != i ==>
                inodes[k] == old(inodes)[k] && Content(sup, Snap(), k) == Content(sup, old(Snap()), k)
      ensures dinodes == old(dinodes)[i := inodes[i]]
      ensures Transaction(sup, old(Snap()), Snap(), old(logged), logged)
    {
      hide InvBut, MetaBelow, Trimmed, Word, Ref, Content, Covers, InodeBlock, Transaction;
      ghost var fs := Snap();
      ButFrom(sup, fs, i);
      ok := FreeDirect(i);
      ghost var fs1, logged1 := Snap(), logged;
      ButShape(sup, fs1, i, 0, 0);
      if inodes[i].addrs[sup.ndirect] != 0 {
        ok := FreeIndirect(i);
        CoversTrans(sup, fs.disk, fs1.disk, disk, old(logged), logged1, logged);
        ButShape(sup, Snap(), i, 0, 0);
        TrimmedTrans(sup, fs, fs1, Snap(), Snap(), i);
      }
      ghost var fs2 := Snap();
      ButShape(sup, fs2, i, 0, 0);
      inodes := inodes[i := inodes[i].(size := 0)];
      TruncDone(sup, fs, fs2, Snap(), i);
      assert SameOthers(fs, Snap(), i);
      LocalLogged(sup, fs, Snap(), Snap(), i, old(logged), logged);
      Iupdate(i);
    }

    /** One transaction of filewrite's loop: begin_op, writei of `n1` bytes, end_op; `off` and `done` as there. */
    method WriteChunk(i: nat, rest: seq<byte>, torn: nat, off: nat, n1: nat, maxOp: nat,
                      ghost fs0: Fs, ghost off0: nat, ghost src: seq<byte>, ghost done: nat, ghost n: nat)
      returns (r: int, faulted: bool)
      requires i < sup.ninodes == |dinodes| && off < W32 && n1 < W32 && maxOp >= 6
      requires FileNow(sup, fs0, Snap(), i, off0, src, done, n, false) && off == off0 + done && done + n1 <= n
               && rest == src[done..]
      requires sup.bsize > 0 && n1 <= Chunks(maxOp) * sup.bsize
      modifies this`disk, this`inodes, this`dinodes, this`logged, this`owner
      ensures |dinodes| == sup.ninodes && -1 <= r <= n1 && (faulted ==> r < n1) && (r > 0 ==> off + r < W32)
      ensures FileNow(sup, fs0, Snap(), i, off0, src, if r > 0 then done + r else done, n, faulted)
      ensures ChunkEnd(sup, fs0, Snap(), i, off0, off, n1, |rest|, r, faulted)
      ensures |logged| <= maxOp && (sup.size <= MapBits(sup.bsize) ==> |logged| <= Chunks(maxOp) + 4)
      ensures ChunkSet(sup, maxOp, logged) && (!faulted ==> Transaction(sup, old(Snap()), Snap(), {}, logged))
      ensures old(inodes == dinodes) ==> inodes == dinodes
    {
      hide Inv, MetaBelow, Ref, Content, Splice, Torn, Spent, MapBits, Chunks, Transaction, InodeBlock, NoRoom,
        ChunkEnd,
        Stops;
      ghost var c0, fs1 := Content(sup, fs0, i), Snap();
      logged := {};
      var r1, torn1, touched, maps := WriteI(i, rest, torn, off, n1);
      r, faulted := r1, torn1;
      ValidShape(sup, Snap());
      if r != -1 {
        ghost var none: set<nat> := {};
        assert none + {InodeBlock(sup, i)} == {InodeBlock(sup, i)};
        ChunkBudget(sup, off, n1, InodeBlock(sup, i), logged, touched, maps, IndirectOf(sup, Snap(), i), maxOp);
        assert ChunkSpent(sup, maxOp, off, n1, InodeBlock(sup, i), logged, touched, maps, IndirectOf(sup, Snap(), i));
        WriteMore(c0, off0, src, done, r, n1, n, Content(sup, Snap(), i), faulted);
      }
      ChunkEnds(sup, fs0, fs1, Snap(), i, off0, src, done, n, n1, r, faulted);
    }

    /** filewrite on an inode: chunks of at most (maxOp - 4) / 2 blocks, one transaction each.  `off` is
        f->off.  It returns `n` exactly when all `n` bytes were written, and it stops earlier only for a reason: the
        offset is beyond the file, the next chunk is beyond what a file can hold, there is no room on the disk for
        the next byte, or the source ends.  Without a fault the file is the old one with those bytes spliced in.  No
        chunk logs more than `maxOp` distinct blocks, nor more than (maxOp - 4) / 2 + 4 when one free map block
        covers the disk. */
    method FileWrite(i: nat, src: seq<byte>, torn: nat, off0: nat, n: int, maxOp: nat)
      returns (ret: int, off: nat, faulted: bool, ghost most: nat, ghost chunks: seq<Chunk>)
      requires Valid() && i < sup.ninodes == |dinodes| && off0 < W32 && n < W32 && maxOp >= 6
      modifies this`disk, this`inodes, this`dinodes, this`logged, this`owner
      ensures |dinodes| == sup.ninodes && off0 <= off < W32
      ensures ret == (if n >= 0 && off == off0 + n then n else -1) && (faulted ==> off < off0 + n)
      ensures off < off0 + n ==> WhyShort(sup, old(Snap()), Snap(), i, off0, off, n, |src|, maxOp, faulted)
      ensures FileNow(sup, old(Snap()), Snap(), i, off0, src, off - off0, if n < 0 then 0 else n, faulted)
      ensures most <= maxOp && (sup.size <= MapBits(sup.bsize) ==> most <= Chunks(maxOp) + 4)
      ensures forall k :: 0 <= k < |chunks| ==>
                ChunkOk(sup, old(Snap()), i, off0, src, if n < 0 then 0 else n, maxOp, chunks[k])
      ensures ChunksJoin(chunks, old(Snap())) && (!faulted ==> ChunksEnd(chunks, old(Snap())) == (Snap(), off - off0))
      ensures old(inodes == dinodes) ==> inodes == dinodes
    {
      hide Inv, MetaBelow, FileNow, MapBits, Chunks, Transaction, ChunksJoin, ChunkSet, ChunkEnd, WhyShort;
      chunks := [];
      assert ChunksJoin(chunks, Snap()) by { NoChunks(Snap()); }
      ghost var fs0, goal := Snap(), if n < 0 then 0 else n;
      ValidShape(sup, fs0);
      FileStarts(sup, fs0, i, off0, src, goal);
      var max := Chunks(maxOp) * sup.bsize;
      ChunkPositive(sup, maxOp);
      var done := 0;
      off, faulted, most := off0, false, 0;
      while done < n
        invariant 0 <= done <= goal && off == off0 + done < W32 && !faulted && |dinodes| == sup.ninodes
        invariant FileNow(sup, fs0, Snap(), i, off0, src, done, goal, false)
        invariant most <= maxOp && (sup.size <= MapBits(sup.bsize) ==> most <= Chunks(maxOp) + 4)
        invariant forall k :: 0 <= k < |chunks| ==> ChunkOk(sup, fs0, i, off0, src, goal, maxOp, chunks[k])
        invariant ChunksJoin(chunks, fs0) && ChunksEnd(chunks, fs0) == (Snap(), done)
        invariant old(inodes == dinodes) ==> inodes == dinodes
        decreases n - done
      {
        var n1 := Min(n - done, max);
        ghost var fs1 := Snap();
        FileSource(sup, fs0, Snap(), i, off0, src, done, goal);
        var r, torn1 := WriteChunk(i, src[done..], torn, off, n1, maxOp, fs0, off0, src, done, goal);
        faulted := torn1;
        most := if |logged| > most then |logged| else most;
        if !faulted {
          ghost var chunk := Chunk(fs1, Snap(), logged, done, if r > 0 then done + r else done);
          ChunksMore(chunks, chunk, fs0);
          chunks := chunks + [chunk];
        }
        if r > 0 {
          off := off + r;
        }
        if r != n1 {
          ShortChunk(sup, fs0, Snap(), i, off0, off0 + done, off, n, n1, |src|, maxOp, r, faulted);
          return -1, off, faulted, most, chunks;
        }
        done := done + r;
      }
      ret := if done == n then n else -1;
    }

    /** All files as byte sequences. */
    ghost function Files(): (r: seq<seq<byte>>)
      requires Shape(sup, Snap())
      reads this
    {
      FilesOf(sup, Snap())
    }

    /** One writei, readi or itrunc as an operation on byte sequences. */
    method PerformOne(op: FileOp) returns (r: int, out: seq<byte>)
      requires Valid() && |dinodes| == sup.ninodes && OpOk(sup, op)
      modifies this`disk, this`inodes, this`dinodes, this`logged, this`owner
      ensures Valid() && Shape(sup, old(Snap())) && Shape(sup, Snap()) && |dinodes| == sup.ninodes
      ensures Files() == Effect(FilesOf(sup, old(Snap())), op, r)
      ensures Answer(sup, FilesOf(sup, old(Snap())), op, r, out, Snap())
      ensures Transaction(sup, old(Snap()), Snap(), old(logged), logged)
              && (old(dinodes == inodes) ==> dinodes == inodes)
      ensures old(SizesFit(inodes)) ==> SizesFit(inodes)
    {
      hide Inv, MetaBelow, FilesOf, Content, Effect, Answer, Full, Spent, Transaction, InodeBlock, Splice, SizesFit;
      r, out := 0, [];
      ghost var fs := Snap();
      ValidShape(sup, fs);
      match op {
        case Write(i, off, src) =>
          var r1, torn, touched, maps := WriteI(i, src, 0, off, |src|);
          r := r1;
          ValidShape(sup, Snap());
          WriteEffect(sup, fs, Snap(), i, off, src, r);
          WriteSizes(sup, fs, Snap(), i, off, src, r);
        case Trunc(i) =>
          var ok := ITrunc(i);
          ValidShape(sup, Snap());
          TruncEffect(sup, fs, Snap(), i, r);
          TruncSizes(sup, fs, Snap(), i);
        case Read(i, off, n) =>
          r, out := ReadI(i, off, n, n);
          ReadAnswer(sup, fs, Snap(), i, off, n, r, out);
          TransactionSelf(sup, fs, logged);
      }
    }

    /** Any sequence of writei, readi and itrunc calls on any inodes, with copies that do not fault, is the
        same sequence of splices, slices and clears on independent byte sequences.  `rs` are the return
        values, `outs` what the reads delivered, `after` the file system after each call: a write is refused
        exactly when it is out of range, and short only if the disk is full after it. */
    method Perform(ops: seq<FileOp>) returns (rs: seq<int>, outs: seq<seq<byte>>, ghost after: seq<Fs>)
      requires Valid() && |dinodes| == sup.ninodes && forall k :: 0 <= k < |ops| ==> OpOk(sup, ops[k])
      modifies this`disk, this`inodes, this`dinodes, this`logged, this`owner
      ensures Valid() && |rs| == |outs| == |after| == |ops|
      ensures Files() == Replay(old(Files()), ops, rs)
      ensures ops != [] ==> after[|ops| - 1] == Snap()
      ensures forall k: nat :: k < |ops| ==> Shown(sup, old(Files()), ops, rs, outs, after, k)
      ensures Transaction(sup, old(Snap()), Snap(), old(logged), logged)
              && (old(dinodes == inodes) ==> dinodes == inodes)
      ensures old(SizesFit(inodes)) ==> SizesFit(inodes)
    {
      hide Inv, MetaBelow, FilesOf, Content, Replay, Effect, Answer, Full, Spent, Shown, Transaction, InodeBlock,
        SizesFit;
      ghost var fs := Snap();
      rs, outs, after := [], [], [];
      ValidShape(sup, fs);
      TransactionSelf(sup, fs, logged);
      ghost var files := Files();
      ReplayNothing(files, ops);
      while |rs| < |ops|
        invariant |rs| == |outs| == |after| <= |ops| && Valid() && Shape(sup, Snap()) && |dinodes| == sup.ninodes
        invariant Files() == Replay(files, ops[..|rs|], rs)
        invariant |rs| > 0 ==> after[|rs| - 1] == Snap()
        invariant forall k: nat :: k < |rs| ==> Shown(sup, files, ops, rs, outs, after, k)
        invariant Transaction(sup, fs, Snap(), old(logged), logged) && (old(dinodes == inodes) ==> dinodes == inodes)
        invariant old(SizesFit(inodes)) ==> SizesFit(inodes)
        decreases |ops| - |rs|
      {
        assert OpOk(sup, ops[|rs|]);
        ghost var fs1, logged1 := Snap(), logged;
        var r, out := PerformOne(ops[|rs|]);
        TransactionTrans(sup, fs, fs1, Snap(), old(logged), logged1, logged);
        ReplayMore(files, ops, rs, r);
        ShownMore(sup, files, ops, rs, outs, after, r, out, Snap());
        rs, outs, after := rs + [r], outs + [out], after + [Snap()];
      }
      assert ops[..|rs|] == ops;
    }
  }

  // ---------------------------------------------------------------- files as byte sequences

  datatype FileOp =
    | Write(i: nat, off: nat, src: seq<byte>)
    | Trunc(i: nat)
    | Read(i: nat, off: nat, n: nat)

  /** The inode exists and the numbers are uint32. */
  predicate OpOk(sup: Super, op: FileOp) {
    && op.i < sup.ninodes
    && (op.Write? ==> op.off < W32 && |op.src| < W32)
    && (op.Read? ==> op.off < W32 && op.n < W32)
  }

  ghost function FilesOf(sup: Super, fs: Fs): (r: seq<seq<byte>>)
    requires Shape(sup, fs)
    ensures |r| == sup.ninodes && forall i: nat :: i < sup.ninodes ==> r[i] == Content(sup, fs, i)
  {
    seq(sup.ninodes, i requires 0 <= i < sup.ninodes => Content(sup, fs, i))
  }

  /** What an operation that returned `r` does to the files. */
  function Effect(files: seq<seq<byte>>, op: FileOp, r: int): (t: seq<seq<byte>>)
    ensures |t| == |files|
  {
    match op
    case Write(i, off, src) =>
      if i < |files| && off <= |files[i]| && 0 <= r <= |src| then files[i := Splice(files[i], off, src[..r])] else files
    case Trunc(i) => if i < |files| then files[i := []] else files
    case Read(_, _, _) => files
  }

  function Replay(files: seq<seq<byte>>, ops: seq<FileOp>, rs: seq<int>): (t: seq<seq<byte>>)
    ensures |t| == |files|
    decreases |ops|
  {
    if ops == [] || |rs| != |ops| then files
    else
      var n := |ops| - 1;
      Effect(Replay(files, ops[..n], rs[..n]), ops[n], rs[n])
  }

  /** What a call returns, given the files before it and the file system after it.  A write is refused exactly if
      it starts beyond the end of the file or ends beyond what a file, or 32 bits, can hold; otherwise it
      writes everything unless the disk is full.  A read delivers the slice it asked for, cut at the end of the
      file, and nothing out of range. */
  ghost predicate Answer(sup: Super, files: seq<seq<byte>>, op: FileOp, r: int, out: seq<byte>, after: Fs) {
    op.i < |files| ==>
      match op
      case Write(i, off, src) =>
        && (r == -1 <==> off > |files[i]| || off + |src| >= W32 || off + |src| > MaxFile(sup) * sup.bsize)
        && (r != -1 ==> 0 <= r <= |src| && (r == |src| || NoRoom(sup, after, i, off + r)))
      case Trunc(_) => true
      case Read(i, off, n) =>
        if off > |files[i]| || off + n >= W32 then r == 0 && out == []
        else var len := Min(n, |files[i]| - off);
             r == len && out == files[i][off..off + len]
  }

  /** Call `k` of a sequence: its answer fits the files before it, and the files after it are what the sequence up to
      it makes of the first ones. */
  ghost predicate Shown(sup: Super, files: seq<seq<byte>>, ops: seq<FileOp>, rs: seq<int>, outs: seq<seq<byte>>,
                        after: seq<Fs>, k: nat) {
    && k < |rs| == |outs| == |after| <= |ops|
    && Inv(sup, after[k]) && Shape(sup, after[k]) && FilesOf(sup, after[k]) == Replay(files, ops[..k + 1], rs[..k + 1])
    && Answer(sup, Replay(files, ops[..k], rs[..k]), ops[k], rs[k], outs[k], after[k])
  }

  lemma ShownMore(sup: Super, files: seq<seq<byte>>, ops: seq<FileOp>, rs: seq<int>, outs: seq<seq<byte>>,
                  after: seq<Fs>,
                  r: int, out: seq<byte>, fs: Fs)
    requires |rs| == |outs| == |after| < |ops| && Inv(sup, fs) && Shape(sup, fs)
    requires forall k: nat :: k < |rs| ==> Shown(sup, files, ops, rs, outs, after, k)
    requires FilesOf(sup, fs) == Effect(Replay(files, ops[..|rs|], rs), ops[|rs|], r)
    requires Answer(sup, Replay(files, ops[..|rs|], rs), ops[|rs|], r, out, fs)
    ensures forall k: nat :: k <= |rs| ==> Shown(sup, files, ops, rs + [r], outs + [out], after + [fs], k)
  {
    hide Inv, MetaBelow, FilesOf, Replay, Effect, Answer;
    ReplayMore(files, ops, rs, r);
    var rs', outs', after' := rs + [r], outs + [out], after + [fs];
    forall k: nat | k <= |rs| ensures Shown(sup, files, ops, rs', outs', after', k) {
      if k < |rs| {
        assert Shown(sup, files, ops, rs, outs, after, k);
      }
    }
  }

  lemma ReplayNothing(files: seq<seq<byte>>, ops: seq<FileOp>)
    ensures Replay(files, ops[..0], []) == files
  {
  }

  lemma ReplayMore(files: seq<seq<byte>>, ops: seq<FileOp>, rs: seq<int>, r: int)
    requires |rs| < |ops|
    ensures Replay(files, ops[..|rs| + 1], rs + [r]) == Effect(Replay(files, ops[..|rs|], rs), ops[|rs|], r)
    ensures forall k :: 0 <= k <= |rs| ==> (rs + [r])[..k] == rs[..k]
    ensures (rs + [r])[..|rs|] == rs && (rs + [r])[..|rs| + 1] == rs + [r]
  {
    var more := ops[..|rs| + 1];
    assert more[..|rs|] == ops[..|rs|] && (rs + [r])[..|rs|] == rs;
  }

  lemma WriteEffect(sup: Super, fs: Fs, fs': Fs, i: nat, off: nat, src: seq<byte>, r: int)
    requires Shape(sup, fs) && Shape(sup, fs') && i < sup.ninodes && r <= |src|
    requires r == -1 ==> fs' == fs
    requires r != -1 ==> 0 <= r && off <= fs.inodes[i].size
    requires r != -1 ==> Content(sup, fs', i) == Splice(Content(sup, fs, i), off, src[..r])
    requires r != -1 ==> forall k: nat :: k < sup.ninodes && k != i ==> Content(sup, fs', k) == Content(sup, fs, k)
    requires r == -1 <==> off > fs.inodes[i].size || off + |src| >= W32 || off + |src| > MaxFile(sup) * sup.bsize
    requires r != -1 ==> r == |src| || NoRoom(sup, fs', i, off + r)
    ensures FilesOf(sup, fs') == Effect(FilesOf(sup, fs), Write(i, off, src), r)
    ensures Answer(sup, FilesOf(sup, fs), Write(i, off, src), r, [], fs')
  {
    hide MetaBelow, Content, FilesOf, Splice, Full;
  }

  /** File sizes are uint32. */
  predicate SizesFit(inodes: seq<Inode>) {
    forall k :: 0 <= k < |inodes| ==> inodes[k].size < W32
  }

  lemma WriteSizes(sup: Super, fs: Fs, fs': Fs, i: nat, off: nat, src: seq<byte>, r: int)
    requires Shape(sup, fs) && Shape(sup, fs') && i < sup.ninodes && r <= |src|
    requires r == -1 ==> fs' == fs
    requires r != -1 ==> 0 <= r && off <= fs.inodes[i].size && off + |src| < W32
    requires r != -1 ==> Content(sup, fs', i) == Splice(Content(sup, fs, i), off, src[..r])
    requires SameOthers(fs, fs', i)
    ensures SizesFit(fs.inodes) ==> SizesFit(fs'.inodes)
  {
    hide MetaBelow;
    if r != -1 {
      var c := Content(sup, fs, i);
      assert |Content(sup, fs', i)| == |Splice(c, off, src[..r])|;
    }
  }

  lemma TruncSizes(sup: Super, fs: Fs, fs': Fs, i: nat)
    requires Shape(sup, fs) && Shape(sup, fs') && i < sup.ninodes && Content(sup, fs', i) == []
             && SameOthers(fs, fs', i)
    ensures SizesFit(fs.inodes) ==> SizesFit(fs'.inodes)
  {
    hide MetaBelow;
    assert fs'.inodes[i].size == |Content(sup, fs', i)|;
  }

  lemma TruncEffect(sup: Super, fs: Fs, fs': Fs, i: nat, r: int)
    requires Shape(sup, fs) && Shape(sup, fs') && i < sup.ninodes && Content(sup, fs', i) == []
    requires forall k: nat :: k < sup.ninodes && k != i ==> Content(sup, fs', k) == Content(sup, fs, k)
    ensures FilesOf(sup, fs') == Effect(FilesOf(sup, fs), Trunc(i), r)
            && Answer(sup, FilesOf(sup, fs), Trunc(i), r, [], fs')
  {
    hide MetaBelow, Content, FilesOf;
  }

  lemma ReadAnswer(sup: Super, fs: Fs, fs': Fs, i: nat, off: nat, n: nat, r: int, out: seq<byte>)
    requires Shape(sup, fs) && i < sup.ninodes
    requires var size := fs.inodes[i].size;
             if off > size || off + n >= W32 then r == 0 && out == []
             else var len := Min(n, size - off); r == len && out == Content(sup, fs, i)[off..off + len]
    ensures Effect(FilesOf(sup, fs), Read(i, off, n), r) == FilesOf(sup, fs)
    ensures Answer(sup, FilesOf(sup, fs), Read(i, off, n), r, out, fs')
  {
    hide MetaBelow, FilesOf;
  }

  /** The file after `done` of the `n` bytes asked for were written at `off0`; nothing else changed. */
  ghost predicate FileNow(sup: Super, fs0: Fs, fs: Fs, i: nat, off0: nat, src: seq<byte>, done: nat, n: nat,
                          faulted: bool) {
    && Shape(sup, fs0) && Inv(sup, fs) && Shape(sup, fs) && i < sup.ninodes && done <= |src| && done <= n
    && (forall k: nat :: k < sup.ninodes && k != i ==> Content(sup, fs, k) == Content(sup, fs0, k))
    && if off0 > fs0.inodes[i].size then done == 0 && fs == fs0 && !faulted
       else
         var exact := Splice(Content(sup, fs0, i), off0, src[..done]);
         if faulted then |src| < n && Torn(Content(sup, fs, i), exact, off0 + done, off0 + n)
         else Content(sup, fs, i) == exact
  }

  /** A chunk of filewrite that did not fault: the file systems at begin_op and at end_op, the blocks logged in
      between, and how many bytes were written in all at either end. */
  datatype Chunk = Chunk(fs: Fs, fs': Fs, logged: set<nat>, done: nat, done': nat)

  ghost predicate ChunkOk(sup: Super, fs0: Fs, i: nat, off0: nat, src: seq<byte>, n: nat, maxOp: nat, c: Chunk)
    requires sup.ipb > 0 && sup.bsize > 0 && maxOp >= 6
  {
    && FileNow(sup, fs0, c.fs, i, off0, src, c.done, n, false)
       && FileNow(sup, fs0, c.fs', i, off0, src, c.done', n, false)
    && c.done <= c.done' && Transaction(sup, c.fs, c.fs', {}, c.logged) && ChunkSet(sup, maxOp, c.logged)
  }

  /** What one chunk of `n1` bytes at `off` did: nothing, being refused although `off` is not beyond the file; or all
      of it, unless
      there is no room for the next byte or the source, of `avail` bytes, ends within a block. */
  ghost predicate ChunkEnd(sup: Super, fs0: Fs, fs: Fs, i: nat, off0: nat, off: nat, n1: nat, avail: nat, r: int,
                           faulted: bool) {
    if r == -1 then !faulted && (Beyond(fs0, i, off0) || off + n1 >= W32 || off + n1 > MaxFile(sup) * sup.bsize)
    else
      && 0 <= r <= n1 && (faulted ==> r <= avail < r + sup.bsize && avail < n1)
      && (!faulted ==> r == n1 || NoRoom(sup, fs, i, off + r))
  }

  /** The offset lies beyond the end of the file. */
  predicate Beyond(fs0: Fs, i: nat, off0: nat) {
    i < |fs0.inodes| && off0 > fs0.inodes[i].size
  }

  lemma ChunkEnds(sup: Super, fs0: Fs, fs1: Fs, fs: Fs, i: nat, off0: nat, src: seq<byte>, done: nat, n: nat, n1: nat,
                  r: int, faulted: bool)
    requires FileNow(sup, fs0, fs1, i, off0, src, done, n, false) && sup.bsize > 0
    requires r == -1 <==> Refused(sup, fs1.inodes[i].size, off0 + done, n1)
    requires r == -1 ==> !faulted
    requires r != -1 ==> 0 <= r <= n1 && Stops(sup.bsize, off0 + done, n1, |src| - done, r, faulted)
    requires r != -1 && faulted ==> |src| - done < n1
    requires r != -1 && !faulted ==> r == n1 || NoRoom(sup, fs, i, off0 + done + r)
    ensures ChunkEnd(sup, fs0, fs, i, off0, off0 + done, n1, |src| - done, r, faulted)
  {
    hide Inv, NoRoom, Rest, MetaBelow;
    if r == -1 && !Beyond(fs0, i, off0) {
      assert |Content(sup, fs1, i)| == fs1.inodes[i].size;
      assert off0 + done <= |Splice(Content(sup, fs0, i), off0, src[..done])|;
    }
  }

  /** Why filewrite ends before all `n` bytes are written, `off` being where it has come to. */
  ghost predicate WhyShort(sup: Super, fs0: Fs, fs: Fs, i: nat, off0: nat, off: nat, n: nat, avail: nat, maxOp: nat,
                           faulted: bool)
    requires maxOp >= 4 && off0 <= off
  {
    var done := off - off0;
    var n1 := Min(n - done, Chunks(maxOp) * sup.bsize);
    if faulted then done <= avail < done + sup.bsize && avail < n
    else
      || Beyond(fs0, i, off0) || off + n1 >= W32 || off + n1 > MaxFile(sup) * sup.bsize
      || NoRoom(sup, fs, i, off)
  }

  lemma ShortChunk(sup: Super, fs0: Fs, fs: Fs, i: nat, off0: nat, off: nat, off': nat, n: nat, n1: nat, avail: nat,
                   maxOp: nat, r: int, faulted: bool)
    requires off0 <= off && maxOp >= 4 && off' == (if r > 0 then off + r else off) && off < off0 + n
             && off - off0 <= avail
    requires n1 == Min(n - (off - off0), Chunks(maxOp) * sup.bsize) && r != n1
    requires ChunkEnd(sup, fs0, fs, i, off0, off, n1, avail - (off - off0), r, faulted)
    ensures WhyShort(sup, fs0, fs, i, off0, off', n, avail, maxOp, faulted)
  {
    hide NoRoom, MaxFile, Chunks;
  }

  /** Where the chunks lead. */
  function ChunksEnd(chunks: seq<Chunk>, fs0: Fs): (Fs, nat) {
    if chunks == [] then (fs0, 0) else (chunks[|chunks| - 1].fs', chunks[|chunks| - 1].done')
  }

  /** Each chunk starts where the ones before it lead. */
  ghost predicate ChunksJoin(chunks: seq<Chunk>, fs0: Fs) {
    forall k: nat :: k < |chunks| ==> (chunks[k].fs, chunks[k].done) == ChunksEnd(chunks[..k], fs0)
  }

  lemma NoChunks(fs0: Fs)
    ensures ChunksJoin([], fs0)
  {
  }

  lemma ChunksMore(chunks: seq<Chunk>, c: Chunk, fs0: Fs)
    requires ChunksJoin(chunks, fs0) && (c.fs, c.done) == ChunksEnd(chunks, fs0)
    ensures ChunksJoin(chunks + [c], fs0) && ChunksEnd(chunks + [c], fs0) == (c.fs', c.done')
  {
    var more := chunks + [c];
    forall k: nat | k < |more| ensures (more[k].fs, more[k].done) == ChunksEnd(more[..k], fs0) {
      assert more[..k] == chunks[..k];
    }
  }

  lemma FileStarts(sup: Super, fs: Fs, i: nat, off0: nat, src: seq<byte>, n: nat)
    requires Inv(sup, fs) && i < sup.ninodes
    ensures FileNow(sup, fs, fs, i, off0, src, 0, n, false)
  {
    hide Inv, Content;
    ValidShape(sup, fs);
    if off0 <= fs.inodes[i].size {
      SpliceNothing(Content(sup, fs, i), off0, src);
    }
  }

  lemma FileSource(sup: Super, fs0: Fs, fs: Fs, i: nat, off0: nat, src: seq<byte>, done: nat, n: nat)
    requires FileNow(sup, fs0, fs, i, off0, src, done, n, false)
    ensures done <= |src|
  {
  }

  lemma ChunkPositive(sup: Super, maxOp: nat)
    requires sup.bsize > 0 && maxOp >= 6
    ensures Chunks(maxOp) * sup.bsize > 0
  {
    assert Chunks(maxOp) >= 1;
  }

  lemma SpliceNothing(c: seq<byte>, off: nat, src: seq<byte>)
    requires off <= |c|
    ensures Splice(c, off, src[..0]) == c
  {
  }

  /** A chunk written behind the chunks before it continues the same splice. */
  lemma WriteMore(c: seq<byte>, off0: nat, src: seq<byte>, done: nat, r: nat, n1: nat, n: nat, now: seq<byte>,
                  faulted: bool)
    requires off0 <= |c| && done <= |src| && done + r <= |src| && r <= n1 && done + n1 <= n
    requires var rest := src[done..];
             var exact := Splice(Splice(c, off0, src[..done]), off0 + done, rest[..r]);
             if faulted then |rest| < n1 && Torn(now, exact, off0 + done + r, off0 + done + n1) else now == exact
    ensures var exact := Splice(c, off0, src[..done + r]);
            if faulted then |src| < n && Torn(now, exact, off0 + done + r, off0 + n) else now == exact
  {
    hide Splice;
    assert Splice(Splice(c, off0, src[..done]), off0 + done, src[done..][..r]) == Splice(c, off0, src[..done + r]);
  }

  /** Blocks per chunk: ((MAXOPBLOCKS-1-1-2) / 2). */
  function Chunks(maxOp: nat): nat
    requires maxOp >= 4
  {
    (maxOp - 4) / 2
  }

  lemma SubsetSize(a: set<nat>, b: set<nat>)
    requires a <= b
    ensures |a| <= |b|
  {
    assert b == a + (b - a);
  }

  lemma LoggedSize(sup: Super, x: nat, logged: set<nat>, touched: set<nat>, maps: set<nat>, ind: nat)
    requires sup.bsize > 0 && LogsOnly(sup, {x}, logged, touched, maps, ind)
    ensures |logged| <= |touched| + |maps| + 2
  {
    hide IsMap;
    var all := {x} + touched + maps + Present(ind);
    SubsetSize(logged, all);
    UnionSize({x} + touched + maps, Present(ind));
    UnionSize({x} + touched, maps);
    UnionSize({x}, touched);
  }

  /** One writei of at most (maxOp - 4) / 2 blocks' worth of bytes fits one operation's share of the log. */
  lemma ChunkBudget(sup: Super, off: nat, n: nat, x: nat, logged: set<nat>, touched: set<nat>, maps: set<nat>, ind: nat,
                    maxOp: nat)
    requires sup.bsize > 0 && maxOp >= 6 && n <= Chunks(maxOp) * sup.bsize
    requires Spent(sup, off, n, {x}, logged, touched, maps, ind)
    ensures |logged| <= maxOp
    ensures sup.size <= MapBits(sup.bsize) ==> |logged| <= Chunks(maxOp) + 4
  {
    var k := Chunks(maxOp);
    SpanBound(off, n, sup.bsize, k);
    LoggedSize(sup, x, logged, touched, maps, ind);
    hide Rest, Quot, MapBits;
    assert 2 * k + 4 <= maxOp;
    assert |maps| <= k + 1 && |touched| <= k + 1;
    if sup.size <= MapBits(sup.bsize) {
      OneMapBlock(sup, maps);
    }
  }

  /** The blocks that one chunk of filewrite may log, or some of them. */
  ghost predicate ChunkSet(sup: Super, maxOp: nat, logged: set<nat>)
    requires sup.bsize > 0 && maxOp >= 6
  {
    logged == {} || exists off: nat, n: nat, x: nat, all: set<nat>, touched: set<nat>, maps: set<nat>, ind: nat ::
      logged <= all && ChunkSpent(sup, maxOp, off, n, x, all, touched, maps, ind)
  }

  ghost predicate ChunkSpent(sup: Super, maxOp: nat, off: nat, n: nat, x: nat, all: set<nat>, touched: set<nat>,
                          maps: set<nat>, ind: nat)
    requires sup.bsize > 0 && maxOp >= 6
  {
    n <= Chunks(maxOp) * sup.bsize && Spent(sup, off, n, {x}, all, touched, maps, ind)
  }

  lemma ChunkFits(sup: Super, maxOp: nat, off: nat, n: nat, x: nat, all: set<nat>, touched: set<nat>, maps: set<nat>,
                  ind: nat)
    requires sup.bsize > 0 && maxOp >= 6 && ChunkSpent(sup, maxOp, off, n, x, all, touched, maps, ind)
    ensures |all| <= maxOp && (sup.size <= MapBits(sup.bsize) ==> |all| <= Chunks(maxOp) + 4)
  {
    hide Spent, MapBits, Chunks;
    ChunkBudget(sup, off, n, x, all, touched, maps, ind, maxOp);
  }

  lemma ChunkSetSize(sup: Super, maxOp: nat, logged: set<nat>)
    requires sup.bsize > 0 && maxOp >= 6 && ChunkSet(sup, maxOp, logged)
    ensures |logged| <= maxOp && (sup.size <= MapBits(sup.bsize) ==> |logged| <= Chunks(maxOp) + 4)
  {
    hide ChunkSpent, MapBits, Chunks;
    if logged != {} {
      var off: nat, n: nat, x: nat, all: set<nat>, touched: set<nat>, maps: set<nat>, ind: nat :|
        logged <= all && ChunkSpent(sup, maxOp, off, n, x, all, touched, maps, ind);
      ChunkFits(sup, maxOp, off, n, x, all, touched, maps, ind);
      SubsetSize(logged, all);
    }
  }

  lemma OneMapBlock(sup: Super, maps: set<nat>)
    requires sup.bsize > 0 && sup.size <= MapBits(sup.bsize) && forall x :: x in maps ==> IsMap(sup, x)
    ensures |maps| <= 1
  {
    forall x | x in maps ensures x == sup.bmapstart {
      var b: nat :| b < sup.size && x == MapBlock(sup, b);
      SmallQuot(b, MapBits(sup.bsize));
    }
    assert maps <= {sup.bmapstart};
    UnionSize(maps, {sup.bmapstart} - maps);
    assert maps + ({sup.bmapstart} - maps) == {sup.bmapstart};
  }

  lemma SmallQuot(b: nat, n: nat)
    requires b < n
    ensures Quot(b, n) == 0
  {
    DivModUnique(b, n, 0, b);
  }

  /** From `fs` to `fs'` only metadata blocks, inode `i` and the ownership of its blocks changed. */
  ghost predicate Trimmed(sup: Super, fs: Fs, fs': Fs, i: nat) {
    && Shape(sup, fs) && Shape(sup, fs')
    && (forall k: nat :: k < sup.ninodes && k != i ==> fs'.inodes[k] == fs.inodes[k])
    && (forall c: nat :: sup.nmeta <= c < sup.size ==> fs'.disk[c] == fs.disk[c])
    && (forall c: nat :: c < sup.size ==>
          fs'.owner[c] == fs.owner[c] || (fs'.owner[c].Free? && fs.owner[c].At? && fs.owner[c].ino == i))
  }

  lemma TrimmedSelf(sup: Super, fs: Fs, i: nat)
    requires Shape(sup, fs)
    ensures Trimmed(sup, fs, fs, i)
  {
  }

  lemma TrimmedTrans(sup: Super, fs: Fs, fs1: Fs, fs2: Fs, fs3: Fs, i: nat)
    requires Trimmed(sup, fs, fs1, i) && Trimmed(sup, fs1, fs2, i) && Shape(sup, fs3)
    requires fs3.disk == fs2.disk && fs3.owner == fs2.owner && |fs3.inodes| == |fs2.inodes|
    requires forall k: nat :: k < |fs2.inodes| && k != i ==> fs3.inodes[k] == fs2.inodes[k]
    ensures Trimmed(sup, fs, fs3, i)
  {
    hide MetaBelow;
  }

  lemma TrimmedBlock(sup: Super, fs: Fs, fs': Fs, i: nat, c: nat)
    requires Trimmed(sup, fs, fs', i) && sup.nmeta <= c < sup.size
    ensures fs'.disk[c] == fs.disk[c]
  {
  }

  lemma FreedTrims(sup: Super, fs: Fs, i: nat, p: nat, lo: nat, hi: nat)
    requires InvBut(sup, fs, i, lo, hi) && i < sup.ninodes && p < Places(sup) && !(lo <= p < hi)
             && Ref(sup, fs, i, p) != 0
    ensures var b := Ref(sup, fs, i, p);
            && b < sup.size && Mapped(sup, fs.disk, b)
            && Trimmed(sup, fs, Fs(Freed(sup, fs.disk, b), fs.inodes, fs.owner[b := Free]), i)
  {
    hide MetaBelow, Ref, Freed, Mapped, Bit;
    var b := Ref(sup, fs, i, p);
    assert RefOk(sup, fs, i, p);
    FreedBits(sup, fs, b);
  }

  lemma ButShape(sup: Super, fs: Fs, x: nat, lo: nat, hi: nat)
    requires InvBut(sup, fs, x, lo, hi)
    ensures Shape(sup, fs)
  {
  }

  lemma ButFrom(sup: Super, fs: Fs, i: nat)
    requires Inv(sup, fs)
    ensures InvBut(sup, fs, i, 0, 0)
  {
  }

  lemma StaleFrom(sup: Super, fs: Fs, i: nat, lo: nat)
    requires InvBut(sup, fs, i, 0, 0)
    ensures InvBut(sup, fs, i, lo, lo + 0)
  {
  }

  /** A place that holds nothing may as well count as stale. */
  lemma SkipKeeps(sup: Super, fs: Fs, i: nat, lo: nat, hi: nat)
    requires InvBut(sup, fs, i, lo, hi) && i < sup.ninodes && lo <= hi < Places(sup) && Ref(sup, fs, i, hi) == 0
    ensures InvBut(sup, fs, i, lo, hi + 1)
  {
    hide MetaBelow, Mapped, Bit, Ref;
    forall b: nat | b < sup.size && fs.owner[b].At? && fs.owner[b].ino == i
      ensures !(lo <= fs.owner[b].place < hi + 1) {
      assert BlockOk(sup, fs, b) && BlockOk(sup, fs, 0);
    }
  }

  lemma IndirectThere(sup: Super, fs: Fs, i: nat)
    requires InvBut(sup, fs, i, 0, 0) && i < sup.ninodes && fs.inodes[i].addrs[sup.ndirect] != 0
    ensures sup.nmeta <= fs.inodes[i].addrs[sup.ndirect] < sup.size
  {
    hide MetaBelow, Mapped, Bit;
    assert RefOk(sup, fs, i, sup.ndirect);
    assert BlockOk(sup, fs, fs.inodes[i].addrs[sup.ndirect]);
  }

  lemma RefIsWord(sup: Super, fs: Fs, i: nat, j: nat)
    requires Shape(sup, fs) && i < sup.ninodes && j < sup.bsize / 4 && 0 < fs.inodes[i].addrs[sup.ndirect] < sup.size
    ensures Ref(sup, fs, i, sup.ndirect + 1 + j) == Word(fs.disk[fs.inodes[i].addrs[sup.ndirect]], j)
  {
  }

  lemma RefIsPointer(sup: Super, fs: Fs, i: nat)
    requires Shape(sup, fs) && i < sup.ninodes
    ensures Ref(sup, fs, i, sup.ndirect) == fs.inodes[i].addrs[sup.ndirect]
  {
  }

  lemma TruncDone(sup: Super, fs: Fs, fs1: Fs, fs2: Fs, i: nat)
    requires Inv(sup, fs) && InvBut(sup, fs1, i, 0, 0) && Shape(sup, fs1) && Trimmed(sup, fs, fs1, i) && i < sup.ninodes
    requires forall q: nat :: q <= sup.ndirect ==> fs1.inodes[i].addrs[q] == 0
    requires fs2 == fs1.(inodes := fs1.inodes[i := fs1.inodes[i].(size := 0)])
    ensures Inv(sup, fs2) && Shape(sup, fs2) && Shape(sup, fs) && Content(sup, fs2, i) == []
    ensures forall p: nat :: p < Places(sup) ==> Ref(sup, fs2, i, p) == 0
    ensures forall c: nat :: c < sup.size ==>
              fs2.owner[c] == if fs.owner[c].At? && fs.owner[c].ino == i then Free else fs.owner[c]
    ensures forall k: nat :: k < sup.ninodes && k != i ==>
              fs2.inodes[k] == fs.inodes[k] && Content(sup, fs2, k) == Content(sup, fs, k)
  {
    hide MetaBelow, Mapped, Bit, Word;
    EmptyKeeps(sup, fs1, i);
    forall p: nat | p < Places(sup) ensures Ref(sup, fs2, i, p) == 0 {}
    hide Ref;
    forall c: nat | c < sup.size ensures !(fs2.owner[c].At? && fs2.owner[c].ino == i) {
      assert BlockOk(sup, fs2, c) && BlockOk(sup, fs2, 0);
    }
    hide BlockOk;
    forall k: nat | k < sup.ninodes && k != i ensures Content(sup, fs2, k) == Content(sup, fs, k) {
      UntouchedContent(sup, fs, fs2, k);
    }
  }

  lemma SlicesMeet(s: seq<byte>, a: nat, b: nat, c: nat)
    requires a <= b <= c <= |s|
    ensures s[a..b] + s[b..c] == s[a..c]
  {
  }

  lemma BmapFound(sup: Super, fs: Fs, fs': Fs, i: nat, p: nat, addr: nat, logged: set<nat>, logged': set<nat>,
                  maps: set<nat>)
    requires Shape(sup, fs) && Shape(sup, fs') && BmapDone(sup, fs, fs', i, p, addr)
             && BmapLogs(sup, fs, fs', i, p, addr, logged, logged', maps)
    requires Ref(sup, fs, i, p) != 0
    ensures fs' == fs && logged' == logged && addr == Ref(sup, fs, i, p)
  {
  }

  function Resized(fs: Fs, i: nat, size: nat): Fs
    requires i < |fs.inodes|
  {
    fs.(inodes := fs.inodes[i := fs.inodes[i].(size := size)])
  }

  /** What writei has achieved once the size of `fs` is raised to `end`, if it is below. */
  ghost predicate Outcome(sup: Super, fs0: Fs, fs: Fs, i: nat, off: nat, src: seq<byte>, n: nat, tot: nat,
                          faulted: bool) {
    && Inv(sup, fs0) && Shape(sup, fs) && i < sup.ninodes && off <= fs0.inodes[i].size && tot <= n && tot <= |src|
    && fs.inodes[i].size == fs0.inodes[i].size
    && var size := if off + tot > fs0.inodes[i].size then off + tot else fs0.inodes[i].size;
       var fs' := Resized(fs, i, size);
       && Inv(sup, fs')
       && (forall k: nat :: k < sup.ninodes && k != i ==> Content(sup, fs', k) == Content(sup, fs0, k))
       && var exact := Splice(Content(sup, fs0, i), off, src[..tot]);
          if faulted then |src| < n && Torn(Content(sup, fs', i), exact, off + tot, off + n)
          else Content(sup, fs', i) == exact && (tot == n || NoRoom(sup, fs', i, off + tot))
  }

  lemma WriteOutcome(sup: Super, fs0: Fs, fs: Fs, i: nat, off: nat, src: seq<byte>, n: nat, tot: nat)
    requires Written(sup, fs0, fs, i, off, src, tot) && Inv(sup, fs0) && Shape(sup, fs0) && i < sup.ninodes
    requires off <= fs0.inodes[i].size && tot <= n && tot <= |src| && (tot == n || NoRoom(sup, fs, i, off + tot))
    ensures Outcome(sup, fs0, fs, i, off, src, n, tot, false)
  {
    hide Inv, MetaBelow, Content, Splice;
    ValidShape(sup, fs);
    var size := if off + tot > fs0.inodes[i].size then off + tot else fs0.inodes[i].size;
    WrittenDone(sup, fs0, fs, i, off, src, tot, size);
  }

  lemma FaultOutcome(sup: Super, fs0: Fs, fs: Fs, i: nat, off: nat, src: seq<byte>, n: nat, tot: nat, part: seq<byte>)
    requires Written(sup, fs0, fs, i, off, src, tot) && Inv(sup, fs0) && Shape(sup, fs0) && Shape(sup, fs)
             && i < sup.ninodes
    requires off <= fs0.inodes[i].size && tot <= |src| < n && HasBlock(sup, fs, i, off + tot)
    requires Rest(off + tot, sup.bsize) + |part| <= sup.bsize && tot + |part| <= n
    ensures var addr := Ref(sup, fs, i, DataPlace(sup, Quot(off + tot, sup.bsize)));
            addr < sup.size
            && Outcome(sup, fs0, Overwritten(fs, addr, Spliced(fs.disk[addr], Rest(off + tot, sup.bsize), part)), i,
               off, src, n, tot, true)
  {
    hide Inv, MetaBelow, Content, Splice, Quot, Rest, Spliced, Ref;
    var size := if off + tot > fs0.inodes[i].size then off + tot else fs0.inodes[i].size;
    WrittenTorn(sup, fs0, fs, i, off, src, tot, part, size);
  }

  lemma OutcomeHolds(sup: Super, fs0: Fs, fs: Fs, fs': Fs, i: nat, off: nat, src: seq<byte>, n: nat, tot: nat,
                     faulted: bool)
    requires Outcome(sup, fs0, fs, i, off, src, n, tot, faulted)
    requires fs' == if off + tot > fs.inodes[i].size then Resized(fs, i, off + tot) else fs
    ensures Inv(sup, fs') && Shape(sup, fs') && Shape(sup, fs0) && tot <= n && tot <= |src|
            && off <= |Content(sup, fs0, i)|
    ensures forall k: nat :: k < sup.ninodes && k != i ==> Content(sup, fs', k) == Content(sup, fs0, k)
    ensures var exact := Splice(Content(sup, fs0, i), off, src[..tot]);
            if faulted then |src| < n && Torn(Content(sup, fs', i), exact, off + tot, off + n)
            else Content(sup, fs', i) == exact && (tot == n || NoRoom(sup, fs', i, off + tot))
    ensures IndirectOf(sup, fs', i) == IndirectOf(sup, fs, i)
  {
    hide Inv, MetaBelow, Content, Splice, Torn, NoRoom;
    ValidShape(sup, fs0);
    assert Resized(fs, i, fs.inodes[i].size) == fs;
    ValidShape(sup, fs');
  }

  lemma BlockInRange(sup: Super, off: nat, n: nat, tot: nat)
    requires sup.bsize > 0 && tot < n && off + n <= MaxFile(sup) * sup.bsize
    ensures Quot(off + tot, sup.bsize) < MaxFile(sup)
  {
    QuotBelow(off + tot, MaxFile(sup), sup.bsize);
  }

  // ---------------------------------------------------------------- writei's loop

  /** One call of writei and where it started. */
  datatype Call = Call(sup: Super, fs: Fs, i: nat, off: nat, src: seq<byte>, n: nat, logged: set<nat>)
  {
    ghost predicate Ok() {
      Inv(sup, fs) && Shape(sup, fs) && i < sup.ninodes && off <= fs.inodes[i].size
        && off + n <= MaxFile(sup) * sup.bsize
    }

    function Indirect(): nat
      requires Shape(sup, fs) && i < sup.ninodes
    {
      IndirectOf(sup, fs, i)
    }
  }

  /** After `t` rounds that wrote `tot` bytes. */
  ghost predicate Writing(w: Call, fs: Fs, logged: set<nat>, tot: nat, t: nat, touched: set<nat>, maps: set<nat>) {
    && w.Ok() && Shape(w.sup, fs) && Written(w.sup, w.fs, fs, w.i, w.off, w.src, tot) && tot <= w.n && tot <= |w.src|
    && LogsOnly(w.sup, w.logged, logged, touched, maps, IndirectOf(w.sup, fs, w.i))
    && Rounds(w.sup, w.off, w.n, tot, t, touched, maps, w.Indirect(), IndirectOf(w.sup, fs, w.i))
    && Local(w.sup, w.fs, fs, w.i, w.logged, logged)
    && (t == 0 ==> tot == 0 && fs == w.fs) && (w.Indirect() != 0 ==> IndirectOf(w.sup, fs, w.i) == w.Indirect())
    && Stops(w.sup.bsize, w.off, w.n, |w.src|, tot, false)
  }

  /** In the round after those, once bmap has found the block `addr`. */
  ghost predicate Met(w: Call, fs: Fs, logged: set<nat>, tot: nat, t: nat, addr: nat, touched: set<nat>,
                      maps: set<nat>) {
    && w.Ok() && Shape(w.sup, fs) && Written(w.sup, w.fs, fs, w.i, w.off, w.src, tot) && tot < w.n && tot <= |w.src|
    && w.sup.nmeta <= addr < w.sup.size && HasBlock(w.sup, fs, w.i, w.off + tot)
    && Ref(w.sup, fs, w.i, DataPlace(w.sup, Quot(w.off + tot, w.sup.bsize))) == addr
    && LogsOnly(w.sup, w.logged, logged + {addr}, touched, maps, IndirectOf(w.sup, fs, w.i))
    && Spent(w.sup, w.off, w.n, w.logged, logged, touched, maps, IndirectOf(w.sup, fs, w.i))
    && (var m := Min(w.n - tot, w.sup.bsize - Rest(w.off + tot, w.sup.bsize));
        Rounds(w.sup, w.off, w.n, tot + m, t + 1, touched, maps, w.Indirect(), IndirectOf(w.sup, fs, w.i)))
    && Local(w.sup, w.fs, fs, w.i, w.logged, logged) && Stops(w.sup.bsize, w.off, w.n, |w.src|, tot, false)
    && (w.Indirect() != 0 ==> IndirectOf(w.sup, fs, w.i) == w.Indirect())
  }

  /** At the end of the loop. */
  ghost predicate Wrote(w: Call, fs: Fs, logged: set<nat>, tot: nat, faulted: bool, touched: set<nat>, maps: set<nat>) {
    && w.Ok() && Outcome(w.sup, w.fs, fs, w.i, w.off, w.src, w.n, tot, faulted)
    && Spent(w.sup, w.off, w.n, w.logged, logged, touched, maps, IndirectOf(w.sup, fs, w.i))
    && SameOthers(w.fs, fs, w.i) && (!faulted ==> Local(w.sup, w.fs, fs, w.i, w.logged, logged))
    && Stops(w.sup.bsize, w.off, w.n, |w.src|, tot, faulted)
  }

  lemma ShapeSizes(sup: Super, fs: Fs)
    requires Shape(sup, fs)
    ensures sup.bsize > 0 && sup.ipb > 0 && |fs.inodes| == sup.ninodes
  {
  }

  lemma WriteStarts(w: Call)
    requires w.Ok()
    ensures Writing(w, w.fs, w.logged, 0, 0, {}, {})
  {
    hide Inv, MetaBelow, Written, Covers;
    WrittenStart(w.sup, w.fs, w.i, w.off, w.src);
    CoversSelf(w.sup, w.fs.disk, w.logged);
    if w.n > 0 {
      SpanPositive(w.off, w.n, w.sup.bsize);
    }
  }

  lemma WritingInv(w: Call, fs: Fs, logged: set<nat>, tot: nat, t: nat, touched: set<nat>, maps: set<nat>)
    requires Writing(w, fs, logged, tot, t, touched, maps) && tot < w.n
    ensures Inv(w.sup, fs) && Shape(w.sup, fs) && w.sup.bsize > 0 && Quot(w.off + tot, w.sup.bsize) < MaxFile(w.sup)
  {
    hide Quot, MaxFile, MetaBelow;
    BlockInRange(w.sup, w.off, w.n, tot);
  }

  lemma UnalignedFound(w: Call)
    requires w.Ok() && Rest(w.off, w.sup.bsize) != 0 && Quot(w.off, w.sup.bsize) < MaxFile(w.sup)
    ensures Ref(w.sup, w.fs, w.i, DataPlace(w.sup, Quot(w.off, w.sup.bsize))) != 0
  {
    hide Inv, Quot, Rest, Ref;
    UnalignedHasBlock(w.sup, w.fs, w.i, w.off);
  }

  /** What one round's bmap adds to the blocks logged. */
  lemma RoundLogs(w: Call, fs1: Fs, fs2: Fs, tot: nat, t: nat, addr: nat, logged1: set<nat>, logged2: set<nat>,
                  touched: set<nat>, maps: set<nat>, newMaps: set<nat>)
    requires Writing(w, fs1, logged1, tot, t, touched, maps) && tot < w.n && Shape(w.sup, fs1)
    requires Shape(w.sup, fs2) && Quot(w.off + tot, w.sup.bsize) < MaxFile(w.sup)
    requires BmapLogs(w.sup, fs1, fs2, w.i, DataPlace(w.sup, Quot(w.off + tot, w.sup.bsize)), addr, logged1, logged2,
             newMaps)
    ensures var touched', maps', ind0, ind2 := touched + Present(addr), maps + newMaps, w.Indirect(),
            IndirectOf(w.sup, fs2, w.i);
            var m := Min(w.n - tot, w.sup.bsize - Rest(w.off + tot, w.sup.bsize));
            && LogsOnly(w.sup, w.logged, logged2 + Present(addr), touched', maps', ind2)
            && Spent(w.sup, w.off, w.n, w.logged, logged2, touched', maps', ind2)
            && Rounds(w.sup, w.off, w.n, tot + m, t + 1, touched', maps', ind0, ind2)
            && (ind0 != 0 ==> ind2 == ind0)
  {
    hide Inv, MetaBelow, Ref, Quot, Rest, Written, LogsOnly, Rounds, Local, Spent, Shape, BmapLogs, Present, IndirectOf,
      HasBlock, DataPlace;
    var p, ind0, ind1, ind2 := DataPlace(w.sup, Quot(w.off + tot, w.sup.bsize)), w.Indirect(),
      IndirectOf(w.sup, fs1, w.i), IndirectOf(w.sup, fs2, w.i);
    var touched', maps' := touched + Present(addr), maps + newMaps;
    LogsMore(w.sup, fs1, fs2, w.i, p, addr, w.logged, logged1, logged2, touched, maps, newMaps);
    if t == 0 && Rest(w.off, w.sup.bsize) != 0 {
      UnalignedFound(w);
    }
    var m := Min(w.n - tot, w.sup.bsize - Rest(w.off + tot, w.sup.bsize));
    RoundsMore(w.sup, w.off, w.n, tot, t, touched, maps, ind0, ind1, touched', maps', ind2, m,
      Ref(w.sup, fs1, w.i, p) == 0 && addr != 0);
    RoundsEnd(w.sup, w.off, w.n, tot + m, t + 1, touched', maps', ind0, ind2, w.logged, logged2);
  }

  /** One round's bmap: the disk is full, or the round goes on with its block. */
  lemma WriteMapped(w: Call, fs1: Fs, fs2: Fs, tot: nat, t: nat, addr: nat, logged1: set<nat>, logged2: set<nat>,
                    touched: set<nat>, maps: set<nat>, newMaps: set<nat>)
    requires Writing(w, fs1, logged1, tot, t, touched, maps) && tot < w.n && Shape(w.sup, fs1)
    requires Inv(w.sup, fs2) && Quot(w.off + tot, w.sup.bsize) < MaxFile(w.sup)
    requires BmapDone(w.sup, fs1, fs2, w.i, DataPlace(w.sup, Quot(w.off + tot, w.sup.bsize)), addr)
    requires Shape(w.sup, fs2) && BmapLogs(w.sup, fs1, fs2, w.i, DataPlace(w.sup, Quot(w.off + tot, w.sup.bsize)), addr,
             logged1, logged2, newMaps)
    requires Covers(w.sup, fs1.disk, fs2.disk, logged1, logged2)
    ensures addr == 0 ==> Wrote(w, fs2, logged2, tot, false, touched + Present(addr), maps + newMaps)
    ensures addr != 0 ==> Met(w, fs2, logged2, tot, t, addr, touched + Present(addr), maps + newMaps)
  {
    hide Inv, MetaBelow, Ref, Quot, Rest, Written, LogsOnly, Rounds, Extends, Local, Covers, Outcome, Full, BmapLogs,
      Spent, Shape;
    RoundLogs(w, fs1, fs2, tot, t, addr, logged1, logged2, touched, maps, newMaps);
    WrittenExtends(w.sup, w.fs, fs1, fs2, w.i, w.off, w.src, tot);
    LocalBmap(w.sup, w.fs, fs1, fs2, w.i, DataPlace(w.sup, Quot(w.off + tot, w.sup.bsize)), addr, w.logged, logged1,
      logged2);
    LocalOthers(w.sup, w.fs, fs2, w.i, w.logged, logged2);
    if addr == 0 {
      WriteOutcome(w.sup, w.fs, fs2, w.i, w.off, w.src, w.n, tot);
    }
  }

  lemma MetBlock(w: Call, fs: Fs, logged: set<nat>, tot: nat, t: nat, addr: nat, touched: set<nat>, maps: set<nat>)
    requires Met(w, fs, logged, tot, t, addr, touched, maps)
    ensures addr < |fs.disk| && |fs.disk[addr]| == w.sup.bsize
  {
  }

  /** The rest of a round whose copyin succeeds. */
  lemma WriteNext(w: Call, fs: Fs, fs': Fs, logged: set<nat>, tot: nat, t: nat, addr: nat, touched: set<nat>,
                  maps: set<nat>, m: nat)
    requires Met(w, fs, logged, tot, t, addr, touched, maps) && addr < |fs.disk|
    requires m == Min(w.n - tot, w.sup.bsize - Rest(w.off + tot, w.sup.bsize)) && tot + m <= |w.src|
             && |fs.disk[addr]| == w.sup.bsize
    requires var blk := Spliced(fs.disk[addr], Rest(w.off + tot, w.sup.bsize), w.src[tot..tot + m]);
             fs' == fs.(disk := fs.disk[addr := blk])
    ensures Writing(w, fs', logged + {addr}, tot + m, t + 1, touched, maps)
  {
    hide Inv, MetaBelow, Ref, Quot, Rest, Written, LogsOnly, Rounds, Local, Spent, HasBlock, DataPlace;
    WrittenChunk(w.sup, w.fs, fs, w.i, w.off, w.src, tot, m);
    BlockEnd(w.off + tot, w.sup.bsize);
    LocalChunk(w.sup, w.fs, fs, fs', w.i, addr, fs'.disk[addr], w.logged, logged);
  }

  /** The rest of a round whose copyin stops after `part`. */
  lemma WriteFaults(w: Call, fs: Fs, fs': Fs, logged: set<nat>, tot: nat, t: nat, addr: nat, touched: set<nat>,
                    maps: set<nat>, part: seq<byte>)
    requires Met(w, fs, logged, tot, t, addr, touched, maps) && addr < |fs.disk| && |w.src| < w.n
    requires tot + Min(w.n - tot, w.sup.bsize - Rest(w.off + tot, w.sup.bsize)) > |w.src|
    requires Rest(w.off + tot, w.sup.bsize) + |part| <= w.sup.bsize == |fs.disk[addr]| && tot + |part| <= w.n
    requires fs' == fs.(disk := fs.disk[addr := Spliced(fs.disk[addr], Rest(w.off + tot, w.sup.bsize), part)])
    ensures Wrote(w, fs', logged, tot, true, touched, maps)
  {
    hide Inv, MetaBelow, Ref, Quot, Rest, Written, LogsOnly, Rounds, Local, Spent, HasBlock, DataPlace, Outcome;
    FaultOutcome(w.sup, w.fs, fs, w.i, w.off, w.src, w.n, tot, part);
    assert SameOthers(w.fs, fs, w.i) by { LocalOthers(w.sup, w.fs, fs, w.i, w.logged, logged); }
  }

  lemma WriteEnds(w: Call, fs: Fs, logged: set<nat>, tot: nat, t: nat, touched: set<nat>, maps: set<nat>)
    requires Writing(w, fs, logged, tot, t, touched, maps) && tot == w.n
    ensures Wrote(w, fs, logged, tot, false, touched, maps)
  {
    hide Inv, MetaBelow, Written, LogsOnly, Rounds, Local, Spent, Outcome;
    LocalOthers(w.sup, w.fs, fs, w.i, w.logged, logged);
    WriteOutcome(w.sup, w.fs, fs, w.i, w.off, w.src, w.n, tot);
    RoundsEnd(w.sup, w.off, w.n, tot, t, touched, maps, w.Indirect(), IndirectOf(w.sup, fs, w.i), w.logged, logged);
  }

  lemma WroteShape(w: Call, fs: Fs, logged: set<nat>, tot: nat, faulted: bool, touched: set<nat>, maps: set<nat>)
    requires Wrote(w, fs, logged, tot, faulted, touched, maps)
    ensures Shape(w.sup, fs) && w.i < |fs.inodes| && tot <= w.n && tot <= |w.src|
  {
  }

  /** What writei promises, once the size is brought up to date and the inode logged. */
  lemma WriteDone(w: Call, fs: Fs, fs': Fs, logged: set<nat>, tot: nat, faulted: bool, touched: set<nat>,
                  maps: set<nat>)
    requires Wrote(w, fs, logged, tot, faulted, touched, maps) && w.i < |fs.inodes|
    requires fs' == if w.off + tot > fs.inodes[w.i].size then Resized(fs, w.i, w.off + tot) else fs
    ensures Inv(w.sup, fs') && Shape(w.sup, fs') && Shape(w.sup, w.fs) && w.i < w.sup.ninodes
            && w.off <= |Content(w.sup, w.fs, w.i)|
    ensures forall k: nat :: k < w.sup.ninodes && k != w.i ==>
              Content(w.sup, fs', k) == Content(w.sup, w.fs, k) && fs'.inodes[k] == w.fs.inodes[k]
    ensures tot <= w.n && tot <= |w.src| && |fs'.inodes| == w.sup.ninodes
    ensures var exact := Splice(Content(w.sup, w.fs, w.i), w.off, w.src[..tot]);
            if faulted then |w.src| < w.n && Torn(Content(w.sup, fs', w.i), exact, w.off + tot, w.off + w.n)
            else Content(w.sup, fs', w.i) == exact && (tot == w.n || NoRoom(w.sup, fs', w.i, w.off + tot))
    ensures w.sup.bsize > 0 && Stops(w.sup.bsize, w.off, w.n, |w.src|, tot, faulted)
    ensures var x := InodeBlock(w.sup, w.i);
            && Spent(w.sup, w.off, w.n, w.logged + {x}, logged + {x}, touched, maps, IndirectOf(w.sup, fs', w.i))
            && (!faulted ==> Transaction(w.sup, w.fs, fs', w.logged, logged + {x}))
  {
    hide Inv, MetaBelow, Content, Splice, Torn, Full, Outcome, Spent, Local, Transaction, InodeBlock;
    WroteShape(w, fs, logged, tot, faulted, touched, maps);
    OutcomeHolds(w.sup, w.fs, fs, fs', w.i, w.off, w.src, w.n, tot, faulted);
    SpentInode(w.sup, w.off, w.n, w.logged, logged, touched, maps, IndirectOf(w.sup, fs, w.i), InodeBlock(w.sup, w.i));
    if !faulted {
      LocalLogged(w.sup, w.fs, fs, fs', w.i, w.logged, logged);
    }
  }

  lemma SpentInode(sup: Super, off: nat, n: nat, logged0: set<nat>, logged: set<nat>, touched: set<nat>, maps: set<nat>,
                   ind: nat, x: nat)
    requires sup.bsize > 0 && Spent(sup, off, n, logged0, logged, touched, maps, ind)
    ensures Spent(sup, off, n, logged0 + {x}, logged + {x}, touched, maps, ind)
  {
    hide Span, Rest;
  }

  lemma GrownShape(sup: Super, fs: Fs, fs': Fs, i: nat, addr: nat)
    requires Grown(sup, fs, fs', i, sup.ndirect, addr)
    ensures Inv(sup, fs') && Shape(sup, fs') && fs'.inodes[i].addrs[sup.ndirect] == addr
  {
  }

  /** What bmap achieves for the place `p` of a file block. */
  ghost predicate BmapDone(sup: Super, fs: Fs, fs': Fs, i: nat, p: nat, addr: nat) {
    && Extends(sup, fs, fs') && i < sup.ninodes && p < Places(sup)
    && (forall k: nat :: k < sup.ninodes && k != i ==> fs'.inodes[k] == fs.inodes[k])
    && addr == Ref(sup, fs', i, p)
    && (addr == 0 ==> Full(sup, fs'))
    && (addr != 0 ==> sup.nmeta <= addr < sup.size)
    && (addr != 0 && Ref(sup, fs, i, p) == 0 ==> fs'.disk[addr] == Zeros(sup.bsize))
    && (Ref(sup, fs, i, p) != 0 ==> fs' == fs)
  }

  lemma BmapDirect(sup: Super, fs: Fs, fs': Fs, i: nat, p: nat, addr: nat, logged: set<nat>, logged': set<nat>)
    returns (maps: set<nat>)
    requires Grown(sup, fs, fs', i, p, addr) && p < sup.ndirect
    requires logged' == if fs' == fs then logged else logged + {MapBlock(sup, addr), addr}
    ensures Inv(sup, fs') && BmapDone(sup, fs, fs', i, p, addr)
            && BmapLogs(sup, fs, fs', i, p, addr, logged, logged', maps)
  {
    hide MetaBelow, MapBlock, IsMap;
    assert KeepsPlace(sup, fs, fs', i, sup.ndirect);
    maps := {};
    if fs' != fs {
      maps := {MapBlock(sup, addr)};
      MapIsMap(sup, addr);
    }
  }

  lemma BmapNoIndirect(sup: Super, fs: Fs, fs': Fs, i: nat, p: nat, logged: set<nat>) returns (maps: set<nat>)
    requires Grown(sup, fs, fs', i, sup.ndirect, 0) && sup.ndirect < p < Places(sup)
    ensures fs' == fs && Inv(sup, fs)
    ensures BmapDone(sup, fs, fs', i, p, 0) && BmapLogs(sup, fs, fs', i, p, 0, logged, logged, maps)
  {
    hide MetaBelow, MapBlock, IsMap;
    maps := {};
  }

  /** Both steps of the indirect case together, for the contents. */
  lemma BmapIndirectDone(sup: Super, fs: Fs, fs1: Fs, fs2: Fs, i: nat, p: nat, ind: nat, addr: nat)
    requires Grown(sup, fs, fs1, i, sup.ndirect, ind) && Grown(sup, fs1, fs2, i, p, addr) && ind != 0
             && sup.ndirect < p < Places(sup)
    requires fs2.inodes == fs1.inodes
    ensures BmapDone(sup, fs, fs2, i, p, addr)
    ensures fs2.inodes[i].addrs[sup.ndirect] == ind
    ensures var old_ind := fs.inodes[i].addrs[sup.ndirect];
            (old_ind == 0 || old_ind == ind)
              && (fs1 != fs ==> old_ind == 0 && Ref(sup, fs, i, p) == 0 && ind < sup.size)
    ensures fs2 != fs1 ==> Ref(sup, fs, i, p) == 0 && 0 < addr < sup.size
  {
    hide MetaBelow, Extends, Inv, RefsAfter, Full, Word, Zeros;
    ValidShape(sup, fs);
    ValidShape(sup, fs1);
    ValidShape(sup, fs2);
    ExtendsTrans(sup, fs, fs1, fs2);
    if fs1 != fs {
      OtherRef(sup, fs, fs1, i, sup.ndirect, ind, i, p);
      NoIndirectNoRef(sup, fs, i, p);
    }
  }

  lemma BmapIndirect(sup: Super, fs: Fs, fs1: Fs, fs2: Fs, i: nat, p: nat, ind: nat, addr: nat, logged: set<nat>,
                     logged1: set<nat>, logged2: set<nat>)
    returns (maps: set<nat>)
    requires Grown(sup, fs, fs1, i, sup.ndirect, ind) && Grown(sup, fs1, fs2, i, p, addr) && ind != 0
             && sup.ndirect < p < Places(sup)
    requires fs2.inodes == fs1.inodes
    requires logged1 == if fs1 == fs then logged else logged + {MapBlock(sup, ind), ind}
    requires logged2 == if fs2 == fs1 then logged1 else logged1 + {MapBlock(sup, addr), addr, ind}
    ensures Inv(sup, fs2) && BmapDone(sup, fs, fs2, i, p, addr)
            && BmapLogs(sup, fs, fs2, i, p, addr, logged, logged2, maps)
  {
    hide MetaBelow, MapBlock, IsMap, Extends, Inv, BmapDone, Ref, RefsAfter, Full, Zeros;
    ValidShape(sup, fs);
    ValidShape(sup, fs2);
    BmapIndirectDone(sup, fs, fs1, fs2, i, p, ind, addr);
    hide Grown, Shape;
    maps := LoggedByTwo(sup, ind, addr, fs1 != fs, fs2 != fs1, logged, logged2);
  }

  lemma LoggedByTwo(sup: Super, ind: nat, addr: nat, first: bool, second: bool, logged: set<nat>, logged2: set<nat>)
    returns (maps: set<nat>)
    requires sup.bsize > 0 && ind != 0 && (first ==> ind < sup.size) && (second ==> 0 < addr < sup.size)
    requires var logged1 := if first then logged + {MapBlock(sup, ind), ind} else logged;
             logged2 == if second then logged1 + {MapBlock(sup, addr), addr, ind} else logged1
    ensures logged <= logged2 <= logged + maps + Present(addr) + Present(ind)
    ensures (forall x :: x in maps ==> IsMap(sup, x)) && |maps| <= (if first then 1 else 0) + (if second then 1 else 0)
  {
    hide MapBlock, IsMap;
    if first {
      MapIsMap(sup, ind);
    }
    if second {
      MapIsMap(sup, addr);
    }
    var m1, m2 := MapBlock(sup, ind), MapBlock(sup, addr);
    maps := if first && second then {m1} + {m2} else if first then {m1} else if second then {m2} else {};
  }

  lemma NoIndirectNoRef(sup: Super, fs: Fs, i: nat, p: nat)
    requires Shape(sup, fs) && i < sup.ninodes && sup.ndirect < p < Places(sup) && fs.inodes[i].addrs[sup.ndirect] == 0
    ensures Ref(sup, fs, i, p) == 0
  {
  }

  lemma MapIsMap(sup: Super, b: nat)
    requires b < sup.size && sup.bsize > 0
    ensures IsMap(sup, MapBlock(sup, b))
  {
  }

  lemma OtherRef(sup: Super, fs: Fs, fs': Fs, i: nat, p: nat, b: nat, k: nat, q: nat)
    requires RefsAfter(sup, fs, fs', i, p, b) && k < sup.ninodes && q < Places(sup) && (k != i || q != p)
    ensures Ref(sup, fs', k, q) == Ref(sup, fs, k, q)
  {
  }

  lemma ValidShape(sup: Super, fs: Fs)
    requires Inv(sup, fs)
    ensures Shape(sup, fs)
  {
  }

  lemma PutBitByte(x: byte, k: nat, v: bool)
    requires k < 8
    ensures PutBit(x as int, k, v) < 256
  {
    ByteIsEightBits();
    PutBitFits(x as int, k, v, 8);
  }
}
