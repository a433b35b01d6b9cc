/**
  Inodes, their block maps and the ownership of disk blocks, as values.

  A place of an inode is a cell that can hold a block number: places 0..ndirect-1 are the direct ones,
  place `ndirect` is the pointer to the indirect block, and the places after it are the indirect
  block's words.
*/
module FsInodes {
  import opened Machine
  import opened FsLayout

  /** struct inode: addrs has ndirect + 1 entries, 0 for none. */
  datatype Inode = Inode(addrs: seq<nat>, size: nat)

  /** Who uses a block: nobody, the file system's own structures, or one place of one inode. */
  datatype Owner = Free | Meta | At(ino: nat, place: nat)

  /** The blocks as seen through the buffer cache, the inodes in memory, and (as history) the owners. */
  datatype Fs = Fs(disk: seq<Block>, inodes: seq<Inode>, owner: seq<Owner>)

  function Places(sup: Super): nat {
    sup.ndirect + 1 + sup.bsize / 4
  }

  function MaxFile(sup: Super): nat {
    sup.ndirect + sup.bsize / 4
  }

  /** The place that holds the file's `bn`th data block. */
  function DataPlace(sup: Super, bn: nat): (p: nat)
    ensures p != sup.ndirect && (bn < MaxFile(sup) ==> p < Places(sup))
  {
    if bn < sup.ndirect then bn else bn + 1
  }

  predicate Shape(sup: Super, fs: Fs) {
    && SuperOk(sup)
    && |fs.disk| == |fs.owner| == sup.size && |fs.inodes| == sup.ninodes
    && (forall b: nat :: b < sup.size ==> |fs.disk[b]| == sup.bsize)
    && (forall i: nat :: i < |fs.inodes| ==> |fs.inodes[i].addrs| == sup.ndirect + 1)
  }

  /** The block number at a place, 0 for none. */
  function Ref(sup: Super, fs: Fs, i: nat, p: nat): nat
    requires Shape(sup, fs) && i < sup.ninodes && p < Places(sup)
  {
    var addrs := fs.inodes[i].addrs;
    if p <= sup.ndirect then addrs[p]
    else if 0 < addrs[sup.ndirect] < sup.size then Word(fs.disk[addrs[sup.ndirect]], p - sup.ndirect - 1)
    else 0
  }

  // ---------------------------------------------------------------- block ownership

  /** The free map and the owner agree on `b`, and the owning place refers back to it. */
  predicate BlockOk(sup: Super, fs: Fs, b: nat)
    requires Shape(sup, fs) && b < sup.size
  {
    var o := fs.owner[b];
    && Mapped(sup, fs.disk, b)
    && (Bit(sup, fs.disk, b) <==> !o.Free?)
    && (o.Meta? <==> b < sup.nmeta)
    && (o.At? ==> o.ino < sup.ninodes && o.place < Places(sup) && Ref(sup, fs, o.ino, o.place) == b)
  }

  predicate RefOk(sup: Super, fs: Fs, i: nat, p: nat)
    requires Shape(sup, fs) && i < sup.ninodes && p < Places(sup)
  {
    var b := Ref(sup, fs, i, p);
    b == 0 || (b < sup.size && fs.owner[b] == At(i, p))
  }

  /** No holes: every byte below the size has a block. */
  predicate ByteOk(sup: Super, fs: Fs, i: nat, off: nat)
    requires Shape(sup, fs) && i < sup.ninodes
  {
    off < fs.inodes[i].size ==>
      Quot(off, sup.bsize) < MaxFile(sup) && Ref(sup, fs, i, DataPlace(sup, Quot(off, sup.bsize))) != 0
  }

  /** The invariant, except that inode `x` may have holes and its places `lo..hi` may hold stale numbers. */
  ghost predicate InvBut(sup: Super, fs: Fs, x: nat, lo: nat, hi: nat) {
    && Shape(sup, fs)
    && (forall b: nat :: b < sup.size ==> BlockOk(sup, fs, b))
    && (forall i: nat, p: nat :: i < sup.ninodes && p < Places(sup) && !(i == x && lo <= p < hi) ==>
         RefOk(sup, fs, i, p))
    && (forall i: nat, off: nat :: i < sup.ninodes && i != x ==> ByteOk(sup, fs, i, off))
    && (forall b: nat :: b < sup.size && fs.owner[b].At? && fs.owner[b].ino == x ==> !(lo <= fs.owner[b].place < hi))
  }

  ghost predicate Inv(sup: Super, fs: Fs) {
    InvBut(sup, fs, sup.ninodes, 0, 0)
  }

  /** At an operation boundary a block is marked in use exactly when it is metadata or some place of some
      inode refers to it, and then only that one place does. */
  lemma OwnedExactlyOnce(sup: Super, fs: Fs, b: nat)
    requires Inv(sup, fs) && b < sup.size
    ensures Mapped(sup, fs.disk, b)
    ensures Bit(sup, fs.disk, b) <==>
      b < sup.nmeta || exists i: nat, p: nat :: i < sup.ninodes && p < Places(sup) && Ref(sup, fs, i, p) == b
    ensures forall i: nat, p: nat, j: nat, q: nat ::
              (i < sup.ninodes && p < Places(sup) && j < sup.ninodes && q < Places(sup) && b != 0
               && Ref(sup, fs, i, p) == b && Ref(sup, fs, j, q) == b) ==> i == j && p == q && b >= sup.nmeta
  {
    hide MetaBelow, Ref, Bit, Mapped;
    assert BlockOk(sup, fs, b);
    forall i: nat, p: nat | i < sup.ninodes && p < Places(sup) && Ref(sup, fs, i, p) == b && b != 0
      ensures fs.owner[b] == At(i, p)
    {
      assert RefOk(sup, fs, i, p);
    }
  }

  // ---------------------------------------------------------------- contents

  function ByteAt(sup: Super, fs: Fs, i: nat, off: nat): byte
    requires Shape(sup, fs) && i < sup.ninodes
  {
    var bn := Quot(off, sup.bsize);
    if bn < MaxFile(sup) && 0 < Ref(sup, fs, i, DataPlace(sup, bn)) < sup.size then
      fs.disk[Ref(sup, fs, i, DataPlace(sup, bn))][Rest(off, sup.bsize)]
    else 0
  }

  /** The inode as one byte sequence. */
  function Content(sup: Super, fs: Fs, i: nat): (r: seq<byte>)
    requires Shape(sup, fs) && i < sup.ninodes
    ensures |r| == fs.inodes[i].size
  {
    seq(fs.inodes[i].size, off requires 0 <= off => ByteAt(sup, fs, i, off))
  }

  /** From `fs` to `fs'` no inode lost a block, and no data block in use changed. */
  ghost predicate Extends(sup: Super, fs: Fs, fs': Fs) {
    && Shape(sup, fs) && Shape(sup, fs')
    && (forall i: nat :: i < sup.ninodes ==> fs'.inodes[i].size == fs.inodes[i].size)
    && (forall i: nat, p: nat :: i < sup.ninodes && p < Places(sup) ==> KeepsPlace(sup, fs, fs', i, p))
  }

  predicate KeepsPlace(sup: Super, fs: Fs, fs': Fs, i: nat, p: nat)
    requires Shape(sup, fs) && Shape(sup, fs') && i < sup.ninodes && p < Places(sup)
  {
    var b := Ref(sup, fs, i, p);
    && (b != 0 ==> Ref(sup, fs', i, p) == b)
    && (0 < b < sup.size && p != sup.ndirect ==> fs'.disk[b] == fs.disk[b])
  }

  /** The file byte `off` has a block behind it. */
  predicate HasBlock(sup: Super, fs: Fs, i: nat, off: nat)
    requires Shape(sup, fs) && i < sup.ninodes
  {
    Quot(off, sup.bsize) < MaxFile(sup) && Ref(sup, fs, i, DataPlace(sup, Quot(off, sup.bsize))) != 0
  }

  lemma ExtendsByte(sup: Super, fs: Fs, fs': Fs, i: nat, off: nat)
    requires Inv(sup, fs) && Extends(sup, fs, fs') && i < sup.ninodes && HasBlock(sup, fs, i, off)
    ensures HasBlock(sup, fs', i, off) && ByteAt(sup, fs', i, off) == ByteAt(sup, fs, i, off)
  {
    hide MetaBelow, Ref, BlockOk, ByteOk, Quot, Rest;
    var p := DataPlace(sup, Quot(off, sup.bsize));
    assert KeepsPlace(sup, fs, fs', i, p) && RefOk(sup, fs, i, p);
  }

  lemma ExtendsContent(sup: Super, fs: Fs, fs': Fs, i: nat)
    requires Inv(sup, fs) && Extends(sup, fs, fs') && i < sup.ninodes
    ensures Content(sup, fs', i) == Content(sup, fs, i)
  {
    hide MetaBelow, Ref, BlockOk, RefOk, ByteAt, KeepsPlace;
    forall off: nat | off < fs.inodes[i].size ensures ByteAt(sup, fs', i, off) == ByteAt(sup, fs, i, off) {
      assert ByteOk(sup, fs, i, off);
      ExtendsByte(sup, fs, fs', i, off);
    }
  }

  lemma ExtendsSelf(sup: Super, fs: Fs)
    requires Shape(sup, fs)
    ensures Extends(sup, fs, fs)
  {
    hide MetaBelow, Ref;
    forall i: nat, p: nat | i < sup.ninodes && p < Places(sup) ensures KeepsPlace(sup, fs, fs, i, p) {}
  }

  lemma ExtendsTrans(sup: Super, fs: Fs, fs1: Fs, fs2: Fs)
    requires Extends(sup, fs, fs1) && Extends(sup, fs1, fs2)
    ensures Extends(sup, fs, fs2)
  {
    hide MetaBelow, Ref;
    forall i: nat, p: nat | i < sup.ninodes && p < Places(sup) ensures KeepsPlace(sup, fs, fs2, i, p) {
      assert KeepsPlace(sup, fs, fs1, i, p) && KeepsPlace(sup, fs1, fs2, i, p);
    }
  }

  // ---------------------------------------------------------------- giving a place a fresh block

  /** The disk after balloc returned `b`: marked in use and zeroed. */
  function Allocated(sup: Super, disk: seq<Block>, b: nat): (r: seq<Block>)
    requires Mapped(sup, disk, b) && b < |disk|
    ensures |r| == |disk|
  {
    disk[MapBlock(sup, b) := MarkedBlock(sup, disk, b, true)][b := Zeros(sup.bsize)]
  }

  lemma AllocatedFacts(sup: Super, fs: Fs, b: nat)
    requires InvBut(sup, fs, sup.ninodes, 0, 0) && b < sup.size && fs.owner[b].Free?
    ensures Mapped(sup, fs.disk, b)
    ensures var d := Allocated(sup, fs.disk, b);
            && d[b] == Zeros(sup.bsize)
            && (forall c: nat :: c < sup.size ==> |d[c]| == sup.bsize)
            && (forall c: nat :: sup.nmeta <= c < sup.size && c != b ==> d[c] == fs.disk[c])
            && (forall c: nat :: c < sup.size ==>
                  (Mapped(sup, d, c) && Mapped(sup, fs.disk, c) && Bit(sup, d, c) == (c == b || Bit(sup, fs.disk, c))))
  {
    hide MapBlock, MapByte, MapBit, TestBit, MarkedBlock, Zeros, Ref, RefOk, ByteOk;
    assert BlockOk(sup, fs, b) && b >= sup.nmeta;
    var d1 := fs.disk[MapBlock(sup, b) := MarkedBlock(sup, fs.disk, b, true)];
    assert MapBlock(sup, b) < sup.nmeta;
    forall c: nat | c < sup.size
      ensures Mapped(sup, fs.disk, c) && Mapped(sup, Allocated(sup, fs.disk, b), c)
      ensures Bit(sup, Allocated(sup, fs.disk, b), c) == (c == b || Bit(sup, fs.disk, c))
    {
      assert BlockOk(sup, fs, c) && MapBlock(sup, c) < sup.nmeta;
      MarkedBits(sup, fs.disk, b, true, c);
    }
  }

  function WithAddr(inodes: seq<Inode>, i: nat, p: nat, b: nat): (r: seq<Inode>)
    requires i < |inodes| && p < |inodes[i].addrs|
    ensures |r| == |inodes| && |r[i].addrs| == |inodes[i].addrs| && r[i].addrs[p] == b && r[i].size == inodes[i].size
    ensures forall q :: 0 <= q < |r[i].addrs| && q != p ==> r[i].addrs[q] == inodes[i].addrs[q]
    ensures forall k :: 0 <= k < |inodes| && k != i ==> r[k] == inodes[k]
  {
    inodes[i := inodes[i].(addrs := inodes[i].addrs[p := b])]
  }

  /** balloc's block stored in ip->addrs[p]. */
  function LinkedDirect(sup: Super, fs: Fs, i: nat, p: nat, b: nat): Fs
    requires Shape(sup, fs) && i < sup.ninodes && p <= sup.ndirect && b < sup.size && Mapped(sup, fs.disk, b)
  {
    Fs(Allocated(sup, fs.disk, b), WithAddr(fs.inodes, i, p, b), fs.owner[b := At(i, p)])
  }

  /** balloc's block stored in the indirect block. */
  function LinkedIndirect(sup: Super, fs: Fs, i: nat, p: nat, b: nat): Fs
    requires Shape(sup, fs) && i < sup.ninodes && sup.ndirect < p < Places(sup) && b < sup.size
             && Mapped(sup, fs.disk, b)
    requires var ind := fs.inodes[i].addrs[sup.ndirect];
             0 < ind < sup.size && |Allocated(sup, fs.disk, b)[ind]| == sup.bsize
  {
    var ind := fs.inodes[i].addrs[sup.ndirect];
    var d := Allocated(sup, fs.disk, b);
    Fs(d[ind := PutWord(d[ind], p - sup.ndirect - 1, b)], fs.inodes, fs.owner[b := At(i, p)])
  }

  /** Place `(i, p)` now refers to `b`, nothing else changed its block. */
  ghost predicate RefsAfter(sup: Super, fs: Fs, fs': Fs, i: nat, p: nat, b: nat) {
    && Shape(sup, fs) && Shape(sup, fs')
    && (forall k: nat, q: nat :: k < sup.ninodes && q < Places(sup) ==>
          Ref(sup, fs', k, q) == if k == i && q == p then b else Ref(sup, fs, k, q))
  }

  /** The indirect block of an inode is a block of its own. */
  lemma IndirectOwned(sup: Super, fs: Fs, k: nat)
    requires Inv(sup, fs) && k < sup.ninodes
    ensures var ind := fs.inodes[k].addrs[sup.ndirect];
            ind == 0 || (sup.nmeta <= ind < sup.size && fs.owner[ind] == At(k, sup.ndirect))
  {
    hide MetaBelow, Bit, Mapped;
    assert RefOk(sup, fs, k, sup.ndirect);
    var ind := fs.inodes[k].addrs[sup.ndirect];
    if ind != 0 {
      assert BlockOk(sup, fs, ind);
    }
  }

  lemma LinkedDirectRef(sup: Super, fs: Fs, fs': Fs, i: nat, p: nat, b: nat, k: nat, q: nat)
    requires Shape(sup, fs) && Shape(sup, fs') && k < sup.ninodes && q < Places(sup)
    requires i < sup.ninodes && p <= sup.ndirect && 0 < b < sup.size && Ref(sup, fs, i, p) == 0
    requires fs'.inodes == WithAddr(fs.inodes, i, p, b) && fs'.disk[b] == Zeros(sup.bsize)
    requires var ind := fs.inodes[k].addrs[sup.ndirect]; 0 < ind < sup.size ==> fs'.disk[ind] == fs.disk[ind]
    ensures Ref(sup, fs', k, q) == if k == i && q == p then b else Ref(sup, fs, k, q)
  {
    hide MetaBelow, Word, WithAddr, Zeros;
    if q > sup.ndirect && k == i && p == sup.ndirect {
      ZeroWord(sup.bsize, q - sup.ndirect - 1);
    }
  }

  lemma LinkedDirectRefs(sup: Super, fs: Fs, i: nat, p: nat, b: nat)
    requires Inv(sup, fs) && i < sup.ninodes && p <= sup.ndirect && b < sup.size && fs.owner[b].Free?
    requires Ref(sup, fs, i, p) == 0
    ensures Mapped(sup, fs.disk, b) && RefsAfter(sup, fs, LinkedDirect(sup, fs, i, p, b), i, p, b)
  {
    AllocatedFacts(sup, fs, b);
    assert BlockOk(sup, fs, b);
    hide MetaBelow, Bit, Mapped, Allocated, BlockOk, RefOk, ByteOk, Word, WithAddr, Zeros, Ref;
    var fs' := LinkedDirect(sup, fs, i, p, b);
    forall k: nat, q: nat | k < sup.ninodes && q < Places(sup)
      ensures Ref(sup, fs', k, q) == if k == i && q == p then b else Ref(sup, fs, k, q)
    {
      IndirectOwned(sup, fs, k);
      LinkedDirectRef(sup, fs, fs', i, p, b, k, q);
    }
  }

  lemma ZeroWord(n: nat, j: nat)
    requires 4 * j + 4 <= n
    ensures Word(Zeros(n), j) == 0
  {
  }

  lemma LinkedIndirectRefs(sup: Super, fs: Fs, i: nat, p: nat, b: nat)
    requires Inv(sup, fs) && i < sup.ninodes && sup.ndirect < p < Places(sup) && b < sup.size && fs.owner[b].Free?
    requires Ref(sup, fs, i, p) == 0 && fs.inodes[i].addrs[sup.ndirect] != 0
    ensures Mapped(sup, fs.disk, b) && 0 < fs.inodes[i].addrs[sup.ndirect] < sup.size
    ensures |Allocated(sup, fs.disk, b)[fs.inodes[i].addrs[sup.ndirect]]| == sup.bsize
    ensures RefsAfter(sup, fs, LinkedIndirect(sup, fs, i, p, b), i, p, b)
  {
    AllocatedFacts(sup, fs, b);
    IndirectOwned(sup, fs, i);
    hide MetaBelow, Bit, Mapped, Allocated, BlockOk, RefOk, ByteOk, Word, PutWord;
    var fs', ind := LinkedIndirect(sup, fs, i, p, b), fs.inodes[i].addrs[sup.ndirect];
    forall k: nat, q: nat | k < sup.ninodes && q < Places(sup)
      ensures Ref(sup, fs', k, q) == if k == i && q == p then b else Ref(sup, fs, k, q)
    {
      IndirectOwned(sup, fs, k);
      if q > sup.ndirect && k == i {
        WordPut(fs.disk[ind], p - sup.ndirect - 1, b, q - sup.ndirect - 1);
      }
    }
  }

  /** After a fresh block was linked, the invariant holds again and every inode extends what it was. */
  lemma LinkKeeps(sup: Super, fs: Fs, fs': Fs, i: nat, p: nat, b: nat)
    requires Inv(sup, fs) && i < sup.ninodes && p < Places(sup) && b < sup.size && fs.owner[b].Free?
    requires Ref(sup, fs, i, p) == 0 && RefsAfter(sup, fs, fs', i, p, b) && fs'.owner == fs.owner[b := At(i, p)]
    requires forall c: nat :: c < sup.size ==>
               Mapped(sup, fs'.disk, c) && Mapped(sup, fs.disk, c)
                 && Bit(sup, fs'.disk, c) == (c == b || Bit(sup, fs.disk, c))
    requires forall k: nat :: k < sup.ninodes ==> fs'.inodes[k].size == fs.inodes[k].size
    requires forall c: nat :: c < sup.size && fs.owner[c].At? && fs.owner[c].place != sup.ndirect ==>
               fs'.disk[c] == fs.disk[c]
    ensures Inv(sup, fs') && Extends(sup, fs, fs')
  {
    hide MetaBelow, Bit, Mapped, Ref;
    assert BlockOk(sup, fs, b);
    forall c: nat | c < sup.size ensures BlockOk(sup, fs', c) {
      assert BlockOk(sup, fs, c);
    }
    forall k: nat, q: nat | k < sup.ninodes && q < Places(sup)
      ensures RefOk(sup, fs', k, q) && KeepsPlace(sup, fs, fs', k, q)
    {
      assert RefOk(sup, fs, k, q);
    }
    hide BlockOk, RefOk;
    forall k: nat, off: nat | k < sup.ninodes ensures ByteOk(sup, fs', k, off) {
      assert ByteOk(sup, fs, k, off);
    }
  }

  // ---------------------------------------------------------------- writing into a data block

  lemma DataPlaceInjective(sup: Super, a: nat, b: nat)
    requires DataPlace(sup, a) == DataPlace(sup, b)
    ensures a == b
  {
  }

  /** `fs` with block `b` overwritten. */
  function Overwritten(fs: Fs, b: nat, blk: Block): Fs
    requires b < |fs.disk|
  {
    fs.(disk := fs.disk[b := blk])
  }

  ghost predicate SameRefs(sup: Super, fs: Fs, fs': Fs) {
    && Shape(sup, fs) && Shape(sup, fs')
    && (forall k: nat, q: nat :: k < sup.ninodes && q < Places(sup) ==> Ref(sup, fs', k, q) == Ref(sup, fs, k, q))
  }

  lemma OverwriteKeeps(sup: Super, fs: Fs, i: nat, p: nat, blk: Block)
    requires Inv(sup, fs) && i < sup.ninodes && p < Places(sup) && p != sup.ndirect && |blk| == sup.bsize
    requires Ref(sup, fs, i, p) != 0
    ensures sup.nmeta <= Ref(sup, fs, i, p) < sup.size
    ensures var fs' := Overwritten(fs, Ref(sup, fs, i, p), blk); Inv(sup, fs') && SameRefs(sup, fs, fs')
  {
    var b := Ref(sup, fs, i, p);
    assert RefOk(sup, fs, i, p) && BlockOk(sup, fs, b);
    var fs' := Overwritten(fs, b, blk);
    forall c: nat | c < sup.size
      ensures Mapped(sup, fs.disk, c) && Mapped(sup, fs'.disk, c) && Bit(sup, fs'.disk, c) == Bit(sup, fs.disk, c)
    {
      assert BlockOk(sup, fs, c);
      assert MapBlock(sup, c) < sup.nmeta;
    }
    hide Mapped, Bit, MetaBelow, Word;
    forall k: nat, q: nat | k < sup.ninodes && q < Places(sup) ensures Ref(sup, fs', k, q) == Ref(sup, fs, k, q) {
      IndirectOwned(sup, fs, k);
    }
    hide Ref;
    forall c: nat | c < sup.size ensures BlockOk(sup, fs', c) { assert BlockOk(sup, fs, c); }
    forall k: nat, q: nat | k < sup.ninodes && q < Places(sup)
      ensures RefOk(sup, fs', k, q) { assert RefOk(sup, fs, k, q); }
    forall k: nat, off: nat | k < sup.ninodes ensures ByteOk(sup, fs', k, off) { assert ByteOk(sup, fs, k, off); }
  }

  /** Overwriting part of the block behind `off` changes those bytes of that inode and nothing else. */
  lemma OverwriteBytes(sup: Super, fs: Fs, i: nat, off: nat, bytes: seq<byte>, k: nat, o: nat)
    requires Inv(sup, fs) && i < sup.ninodes && HasBlock(sup, fs, i, off) && Rest(off, sup.bsize) + |bytes| <= sup.bsize
    requires k < sup.ninodes
    ensures sup.nmeta <= Ref(sup, fs, i, DataPlace(sup, Quot(off, sup.bsize))) < sup.size
    ensures var b := Ref(sup, fs, i, DataPlace(sup, Quot(off, sup.bsize)));
            var fs' := Overwritten(fs, b, Spliced(fs.disk[b], Rest(off, sup.bsize), bytes));
            Inv(sup, fs') && SameRefs(sup, fs, fs')
            && ByteAt(sup, fs', k, o) ==
               if k == i && off <= o < off + |bytes| then bytes[o - off] else ByteAt(sup, fs, k, o)
  {
    hide MetaBelow, Ref, Quot, Rest, BlockOk, ByteOk, Spliced;
    var p := DataPlace(sup, Quot(off, sup.bsize));
    var b := Ref(sup, fs, i, p);
    assert RefOk(sup, fs, i, p);
    OverwriteKeeps(sup, fs, i, p, Spliced(fs.disk[b], Rest(off, sup.bsize), bytes));
    SameBlock(sup.bsize, off, |bytes|, o);
    if Quot(o, sup.bsize) < MaxFile(sup) {
      var q := DataPlace(sup, Quot(o, sup.bsize));
      assert RefOk(sup, fs, k, q);
      if q == p {
        DataPlaceInjective(sup, Quot(o, sup.bsize), Quot(off, sup.bsize));
      }
    }
  }

  /** Raising the size up to where there are blocks. */
  lemma GrowKeeps(sup: Super, fs: Fs, i: nat, size: nat)
    requires Inv(sup, fs) && i < sup.ninodes
    requires forall o: nat :: o < size ==> HasBlock(sup, fs, i, o)
    ensures var fs' := fs.(inodes := fs.inodes[i := fs.inodes[i].(size := size)]);
            && Inv(sup, fs') && SameRefs(sup, fs, fs')
            && (forall k: nat, o: nat :: k < sup.ninodes ==> ByteAt(sup, fs', k, o) == ByteAt(sup, fs, k, o))
  {
    var fs' := fs.(inodes := fs.inodes[i := fs.inodes[i].(size := size)]);
    hide MetaBelow, Bit, Mapped, Quot, Rest;
    assert SameRefs(sup, fs, fs');
    hide Ref;
    forall c: nat | c < sup.size ensures BlockOk(sup, fs', c) { assert BlockOk(sup, fs, c); }
    forall k: nat, q: nat | k < sup.ninodes && q < Places(sup)
      ensures RefOk(sup, fs', k, q) { assert RefOk(sup, fs, k, q); }
    forall k: nat, o: nat | k < sup.ninodes ensures ByteOk(sup, fs', k, o) {
      assert ByteOk(sup, fs, k, o);
      assert k == i && o < size ==> HasBlock(sup, fs, i, o);
    }
  }

  // ---------------------------------------------------------------- freeing

  /** The disk after bfree(b). */
  function Freed(sup: Super, disk: seq<Block>, b: nat): (r: seq<Block>)
    requires Mapped(sup, disk, b)
    ensures |r| == |disk|
  {
    disk[MapBlock(sup, b) := MarkedBlock(sup, disk, b, false)]
  }

  /** The range `lo'..hi'` is `lo..hi` and `p` next to it. */
  predicate Adds(lo: nat, hi: nat, p: nat, lo': nat, hi': nat) {
    if lo >= hi then lo' == p && hi' == p + 1
    else (p == hi && lo' == lo && hi' == hi + 1) || (p + 1 == lo && lo' == p && hi' == hi)
  }

  lemma FreedBits(sup: Super, fs: Fs, b: nat)
    requires Shape(sup, fs) && b < sup.size && (forall c: nat :: c < sup.size ==> BlockOk(sup, fs, c))
             && fs.owner[b].At?
    ensures sup.nmeta <= b && Mapped(sup, fs.disk, b) && Bit(sup, fs.disk, b)
    ensures var d := Freed(sup, fs.disk, b);
            && (forall c: nat :: c < sup.size ==> |d[c]| == sup.bsize)
            && (forall c: nat :: sup.nmeta <= c < sup.size ==> d[c] == fs.disk[c])
            && (forall c: nat :: c < sup.size ==>
                  (Mapped(sup, d, c) && Mapped(sup, fs.disk, c) && Bit(sup, d, c) == (c != b && Bit(sup, fs.disk, c))))
  {
    hide MarkedBlock, MapByte, MapBit, TestBit, Ref;
    assert BlockOk(sup, fs, b);
    assert MapBlock(sup, b) < sup.nmeta;
    var d := Freed(sup, fs.disk, b);
    forall c: nat | c < sup.size
      ensures Mapped(sup, fs.disk, c) && Mapped(sup, d, c) && Bit(sup, d, c) == (c != b && Bit(sup, fs.disk, c))
    {
      assert BlockOk(sup, fs, c);
      MarkedBits(sup, fs.disk, b, false, c);
    }
  }

  /** Giving up the block at place `p` of inode `x`: it is marked in use, so bfree does not panic, and
      afterwards `p` is one of the stale places. */
  lemma FreeKeeps(sup: Super, fs: Fs, x: nat, p: nat, lo: nat, hi: nat, lo': nat, hi': nat)
    requires InvBut(sup, fs, x, lo, hi) && x < sup.ninodes && p < Places(sup)
    requires Adds(lo, hi, p, lo', hi') && !(lo <= sup.ndirect < hi) && Ref(sup, fs, x, p) != 0
    ensures var b := Ref(sup, fs, x, p);
            && sup.nmeta <= b < sup.size && Mapped(sup, fs.disk, b) && Bit(sup, fs.disk, b)
            && InvBut(sup, Fs(Freed(sup, fs.disk, b), fs.inodes, fs.owner[b := Free]), x, lo', hi')
            && (forall c: nat :: sup.nmeta <= c < sup.size ==> Freed(sup, fs.disk, b)[c] == fs.disk[c])
  {
    hide Mapped, Bit, MetaBelow, Ref, Freed;
    var b := Ref(sup, fs, x, p);
    assert RefOk(sup, fs, x, p);
    FreedBits(sup, fs, b);
    var fs' := Fs(Freed(sup, fs.disk, b), fs.inodes, fs.owner[b := Free]);
    FreedRefs(sup, fs, fs', x, lo, hi);
    forall c: nat | c < sup.size
      ensures BlockOk(sup, fs', c)
      ensures fs'.owner[c].At? && fs'.owner[c].ino == x ==> !(lo' <= fs'.owner[c].place < hi')
    {
      assert BlockOk(sup, fs, c);
    }
    hide BlockOk;
    forall k: nat, q: nat | k < sup.ninodes && q < Places(sup) && !(k == x && lo' <= q < hi')
      ensures RefOk(sup, fs', k, q) {
      assert RefOk(sup, fs, k, q);
    }
    hide RefOk;
    forall k: nat, off: nat | k < sup.ninodes && k != x
      ensures ByteOk(sup, fs', k, off) { assert ByteOk(sup, fs, k, off); }
  }

  /** Changing metadata blocks does not change what any place refers to. */
  lemma FreedRefs(sup: Super, fs: Fs, fs': Fs, x: nat, lo: nat, hi: nat)
    requires InvBut(sup, fs, x, lo, hi) && Shape(sup, fs') && fs'.inodes == fs.inodes
    requires !(lo <= sup.ndirect < hi)
    requires forall c: nat :: sup.nmeta <= c < sup.size ==> fs'.disk[c] == fs.disk[c]
    ensures SameRefs(sup, fs, fs')
  {
    hide MetaBelow, Word, Bit, Mapped;
    forall k: nat, q: nat | k < sup.ninodes && q < Places(sup) ensures Ref(sup, fs', k, q) == Ref(sup, fs, k, q) {
      var ind := fs.inodes[k].addrs[sup.ndirect];
      if 0 < ind < sup.size {
        assert RefOk(sup, fs, k, sup.ndirect) && BlockOk(sup, fs, ind);
      }
    }
  }

  /** Clearing ip->addrs[p] once its block (and, for the indirect pointer, every block behind it) is freed. */
  lemma ClearKeeps(sup: Super, fs: Fs, x: nat, p: nat, hi: nat)
    requires InvBut(sup, fs, x, p, hi) && x < sup.ninodes && p <= sup.ndirect
    requires hi == if p == sup.ndirect then Places(sup) else p + 1
    ensures var fs' := fs.(inodes := WithAddr(fs.inodes, x, p, 0));
            && InvBut(sup, fs', x, 0, 0)
            && (forall k: nat, q: nat :: k < sup.ninodes && q < Places(sup) ==>
                  Ref(sup, fs', k, q) == if k == x && p <= q < hi then 0 else Ref(sup, fs, k, q))
  {
    hide Mapped, Bit, MetaBelow, Word, WithAddr;
    var fs' := fs.(inodes := WithAddr(fs.inodes, x, p, 0));
    forall k: nat, q: nat | k < sup.ninodes && q < Places(sup)
      ensures Ref(sup, fs', k, q) == if k == x && p <= q < hi then 0 else Ref(sup, fs, k, q)
    {
    }
    hide Ref;
    forall c: nat | c < sup.size ensures BlockOk(sup, fs', c) { assert BlockOk(sup, fs, c); }
    hide BlockOk;
    forall k: nat, q: nat | k < sup.ninodes && q < Places(sup) ensures RefOk(sup, fs', k, q) {
      if !(k == x && p <= q < hi) {
        assert RefOk(sup, fs, k, q);
      }
    }
    hide RefOk;
    forall k: nat, off: nat | k < sup.ninodes && k != x
      ensures ByteOk(sup, fs', k, off) { assert ByteOk(sup, fs, k, off); }
  }

  /** With size 0 there is nothing left to have holes in. */
  lemma EmptyKeeps(sup: Super, fs: Fs, x: nat)
    requires InvBut(sup, fs, x, 0, 0) && x < sup.ninodes
    ensures var fs' := fs.(inodes := fs.inodes[x := fs.inodes[x].(size := 0)]); Inv(sup, fs') && SameRefs(sup, fs, fs')
  {
    hide Mapped, Bit, MetaBelow, Word;
    var fs' := fs.(inodes := fs.inodes[x := fs.inodes[x].(size := 0)]);
    assert SameRefs(sup, fs, fs');
    hide Ref;
    forall c: nat | c < sup.size ensures BlockOk(sup, fs', c) { assert BlockOk(sup, fs, c); }
    forall k: nat, q: nat | k < sup.ninodes && q < Places(sup)
      ensures RefOk(sup, fs', k, q) { assert RefOk(sup, fs, k, q); }
    forall k: nat, off: nat | k < sup.ninodes ensures ByteOk(sup, fs', k, off) {
      if k != x {
        assert ByteOk(sup, fs, k, off);
      }
    }
  }

  /** An inode whose own record and data blocks are untouched reads as before. */
  lemma UntouchedContent(sup: Super, fs: Fs, fs': Fs, k: nat)
    requires Inv(sup, fs) && Shape(sup, fs') && k < sup.ninodes && fs'.inodes[k] == fs.inodes[k]
    requires forall c: nat :: sup.nmeta <= c < sup.size ==> fs'.disk[c] == fs.disk[c]
    ensures Content(sup, fs', k) == Content(sup, fs, k)
  {
    hide MetaBelow, Mapped, Bit, Quot, Rest, Word;
    IndirectOwned(sup, fs, k);
    forall q: nat | q < Places(sup) ensures Ref(sup, fs', k, q) == Ref(sup, fs, k, q) {}
    hide Ref;
    forall o: nat | o < fs.inodes[k].size ensures ByteAt(sup, fs', k, o) == ByteAt(sup, fs, k, o) {
      assert ByteOk(sup, fs, k, o);
      var q := DataPlace(sup, Quot(o, sup.bsize));
      assert RefOk(sup, fs, k, q) && BlockOk(sup, fs, Ref(sup, fs, k, q));
    }
  }
}
