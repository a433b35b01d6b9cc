/** Progress of writei and readi in terms of file bytes, and how many blocks a write touches. */
module FsContent {
  import opened Machine
  import opened FsLayout
  import opened FsInodes

  /** `s` with `bytes` written over it from `off` on, growing it if need be. */
  function Splice(s: seq<byte>, off: nat, bytes: seq<byte>): (r: seq<byte>)
    requires off <= |s|
    ensures |r| == (if off + |bytes| > |s| then off + |bytes| else |s|)
    ensures forall o :: 0 <= o < |r| ==> r[o] == if off <= o < off + |bytes| then bytes[o - off] else s[o]
  {
    s[..off] + bytes + if off + |bytes| < |s| then s[off + |bytes|..] else []
  }

  /** Byte `o` after `tot` bytes of `src` were written at `off`: new or as before, and backed by a block. */
  predicate WrittenByte(sup: Super, fs0: Fs, fs: Fs, i: nat, off: nat, src: seq<byte>, tot: nat, o: nat)
    requires Shape(sup, fs0) && Shape(sup, fs) && i < sup.ninodes && tot <= |src|
  {
    o < fs0.inodes[i].size || off <= o < off + tot ==>
      && HasBlock(sup, fs, i, o)
      && ByteAt(sup, fs, i, o) == if off <= o < off + tot then src[o - off] else ByteAt(sup, fs0, i, o)
  }

  /** writei's loop after `tot` bytes: the size is not yet raised, no other inode changed. */
  ghost predicate Written(sup: Super, fs0: Fs, fs: Fs, i: nat, off: nat, src: seq<byte>, tot: nat) {
    && Inv(sup, fs0) && Inv(sup, fs) && i < sup.ninodes && tot <= |src|
    && (forall k: nat :: k < sup.ninodes ==> fs.inodes[k].size == fs0.inodes[k].size)
    && (forall k: nat :: k < sup.ninodes && k != i ==> Content(sup, fs, k) == Content(sup, fs0, k))
    && (forall o: nat :: WrittenByte(sup, fs0, fs, i, off, src, tot, o))
  }

  lemma WrittenStart(sup: Super, fs: Fs, i: nat, off: nat, src: seq<byte>)
    requires Inv(sup, fs) && i < sup.ninodes
    ensures Written(sup, fs, fs, i, off, src, 0)
  {
    hide MetaBelow, Ref, BlockOk, RefOk, ByteAt;
    forall o: nat ensures WrittenByte(sup, fs, fs, i, off, src, 0, o) {
      assert ByteOk(sup, fs, i, o);
    }
  }

  lemma WrittenExtends(sup: Super, fs0: Fs, fs: Fs, fs': Fs, i: nat, off: nat, src: seq<byte>, tot: nat)
    requires Written(sup, fs0, fs, i, off, src, tot) && Extends(sup, fs, fs') && Inv(sup, fs')
    ensures Written(sup, fs0, fs', i, off, src, tot)
  {
    hide MetaBelow, Ref, ByteAt, HasBlock, BlockOk, RefOk, ByteOk, KeepsPlace, Content;
    forall k: nat | k < sup.ninodes && k != i ensures Content(sup, fs', k) == Content(sup, fs0, k) {
      ExtendsContent(sup, fs, fs', k);
    }
    forall o: nat ensures WrittenByte(sup, fs0, fs', i, off, src, tot, o) {
      assert WrittenByte(sup, fs0, fs, i, off, src, tot, o);
      if o < fs0.inodes[i].size || off <= o < off + tot {
        ExtendsByte(sup, fs, fs', i, o);
      }
    }
  }

  /** Other inodes do not notice a write into a block of inode `i`. */
  lemma OverwriteOthers(sup: Super, fs: Fs, i: nat, at: nat, bytes: seq<byte>, k: nat)
    requires Inv(sup, fs) && i < sup.ninodes && HasBlock(sup, fs, i, at) && Rest(at, sup.bsize) + |bytes| <= sup.bsize
    requires k < sup.ninodes && k != i
    ensures sup.nmeta <= Ref(sup, fs, i, DataPlace(sup, Quot(at, sup.bsize))) < sup.size
    ensures var b := Ref(sup, fs, i, DataPlace(sup, Quot(at, sup.bsize)));
            var fs' := Overwritten(fs, b, Spliced(fs.disk[b], Rest(at, sup.bsize), bytes));
            Shape(sup, fs') && Content(sup, fs', k) == Content(sup, fs, k)
  {
    hide MetaBelow, Ref, ByteAt, BlockOk, RefOk, ByteOk, Spliced, Quot, Rest;
    OverwriteBytes(sup, fs, i, at, bytes, k, 0);
    var b := Ref(sup, fs, i, DataPlace(sup, Quot(at, sup.bsize)));
    var fs' := Overwritten(fs, b, Spliced(fs.disk[b], Rest(at, sup.bsize), bytes));
    forall o: nat ensures ByteAt(sup, fs', k, o) == ByteAt(sup, fs, k, o) {
      OverwriteBytes(sup, fs, i, at, bytes, k, o);
    }
  }

  /** One more chunk of writei's loop, inside the block behind `off + tot`. */
  lemma WrittenChunk(sup: Super, fs0: Fs, fs: Fs, i: nat, off: nat, src: seq<byte>, tot: nat, m: nat)
    requires Written(sup, fs0, fs, i, off, src, tot) && tot + m <= |src|
    requires HasBlock(sup, fs, i, off + tot) && Rest(off + tot, sup.bsize) + m <= sup.bsize
    ensures var b := Ref(sup, fs, i, DataPlace(sup, Quot(off + tot, sup.bsize)));
            b < sup.size
            && Written(sup, fs0, Overwritten(fs, b, Spliced(fs.disk[b], Rest(off + tot, sup.bsize), src[tot..tot + m])),
               i, off, src, tot + m)
  {
    hide MetaBelow, Ref, ByteAt, BlockOk, RefOk, ByteOk, Spliced, Content, Quot, Rest;
    var bytes, tot' := src[tot..tot + m], tot + m;
    OverwriteBytes(sup, fs, i, off + tot, bytes, i, 0);
    var b := Ref(sup, fs, i, DataPlace(sup, Quot(off + tot, sup.bsize)));
    var fs' := Overwritten(fs, b, Spliced(fs.disk[b], Rest(off + tot, sup.bsize), bytes));
    forall k: nat | k < sup.ninodes && k != i ensures Content(sup, fs', k) == Content(sup, fs0, k) {
      OverwriteOthers(sup, fs, i, off + tot, bytes, k);
    }
    forall o: nat ensures WrittenByte(sup, fs0, fs', i, off, src, tot', o) {
      assert WrittenByte(sup, fs0, fs, i, off, src, tot, o);
      OverwriteBytes(sup, fs, i, off + tot, bytes, i, o);
      if off + tot <= o < off + tot + m {
        SameBlock(sup.bsize, off + tot, m, o);
      }
    }
  }

  /** After the loop the size is raised to cover what was written: the file is the spliced sequence. */
  lemma WrittenDone(sup: Super, fs0: Fs, fs: Fs, i: nat, off: nat, src: seq<byte>, tot: nat, size: nat)
    requires Written(sup, fs0, fs, i, off, src, tot) && off <= fs0.inodes[i].size
    requires size == if off + tot > fs0.inodes[i].size then off + tot else fs0.inodes[i].size
    ensures var fs' := fs.(inodes := fs.inodes[i := fs.inodes[i].(size := size)]);
            && Inv(sup, fs') && Content(sup, fs', i) == Splice(Content(sup, fs0, i), off, src[..tot])
            && (forall k: nat :: k < sup.ninodes && k != i ==> Content(sup, fs', k) == Content(sup, fs0, k))
  {
    hide MetaBelow, Ref, ByteAt, HasBlock, BlockOk, RefOk, ByteOk, Splice;
    forall o: nat | o < size ensures HasBlock(sup, fs, i, o) {
      assert WrittenByte(sup, fs0, fs, i, off, src, tot, o);
    }
    GrowKeeps(sup, fs, i, size);
    var fs' := fs.(inodes := fs.inodes[i := fs.inodes[i].(size := size)]);
    forall o: nat | o < size ensures Content(sup, fs', i)[o] == Splice(Content(sup, fs0, i), off, src[..tot])[o] {
      assert WrittenByte(sup, fs0, fs, i, off, src, tot, o);
    }
    forall k: nat | k < sup.ninodes && k != i ensures Content(sup, fs', k) == Content(sup, fs0, k) {
      assert Content(sup, fs', k) == Content(sup, fs, k);
    }
  }

  /** A copyin that faulted part way has changed only bytes of this chunk of this file. */
  ghost predicate Torn(s: seq<byte>, exact: seq<byte>, from: nat, upto: nat) {
    |s| == |exact| && forall o :: 0 <= o < |s| && !(from <= o < upto) ==> s[o] == exact[o]
  }

  lemma WrittenTorn(sup: Super, fs0: Fs, fs: Fs, i: nat, off: nat, src: seq<byte>, tot: nat, part: seq<byte>, size: nat)
    requires Written(sup, fs0, fs, i, off, src, tot) && off <= fs0.inodes[i].size
    requires HasBlock(sup, fs, i, off + tot) && Rest(off + tot, sup.bsize) + |part| <= sup.bsize
    requires size == if off + tot > fs0.inodes[i].size then off + tot else fs0.inodes[i].size
    ensures var b := Ref(sup, fs, i, DataPlace(sup, Quot(off + tot, sup.bsize)));
            b < sup.size
            && var fs1 := Overwritten(fs, b, Spliced(fs.disk[b], Rest(off + tot, sup.bsize), part));
               var fs' := fs1.(inodes := fs.inodes[i := fs.inodes[i].(size := size)]);
               && Inv(sup, fs')
               && Torn(Content(sup, fs', i), Splice(Content(sup, fs0, i), off, src[..tot]), off + tot,
                  off + tot + |part|)
               && (forall k: nat :: k < sup.ninodes && k != i ==> Content(sup, fs', k) == Content(sup, fs0, k))
  {
    hide MetaBelow, Ref, ByteAt, BlockOk, RefOk, ByteOk, Splice, Spliced, Quot, Rest;
    OverwriteBytes(sup, fs, i, off + tot, part, i, 0);
    var b := Ref(sup, fs, i, DataPlace(sup, Quot(off + tot, sup.bsize)));
    var fs1 := Overwritten(fs, b, Spliced(fs.disk[b], Rest(off + tot, sup.bsize), part));
    forall o: nat | o < size ensures HasBlock(sup, fs1, i, o) {
      assert WrittenByte(sup, fs0, fs, i, off, src, tot, o);
    }
    hide HasBlock;
    GrowKeeps(sup, fs1, i, size);
    var fs' := fs1.(inodes := fs.inodes[i := fs.inodes[i].(size := size)]);
    forall o: nat | o < size && !(off + tot <= o < off + tot + |part|)
      ensures Content(sup, fs', i)[o] == Splice(Content(sup, fs0, i), off, src[..tot])[o]
    {
      assert WrittenByte(sup, fs0, fs, i, off, src, tot, o);
      OverwriteBytes(sup, fs, i, off + tot, part, i, o);
    }
    forall k: nat | k < sup.ninodes && k != i ensures Content(sup, fs', k) == Content(sup, fs0, k) {
      OverwriteOthers(sup, fs, i, off + tot, part, k);
      assert Content(sup, fs', k) == Content(sup, fs1, k);
    }
  }

  /** What lies in the block behind `off` is that part of the file. */
  lemma ReadChunk(sup: Super, fs: Fs, i: nat, off: nat, m: nat)
    requires Inv(sup, fs) && i < sup.ninodes && 0 < m && off + m <= fs.inodes[i].size
             && Rest(off, sup.bsize) + m <= sup.bsize
    ensures HasBlock(sup, fs, i, off)
    ensures var b, at := Ref(sup, fs, i, DataPlace(sup, Quot(off, sup.bsize))), Rest(off, sup.bsize);
            0 < b < sup.size && fs.disk[b][at..at + m] == Content(sup, fs, i)[off..off + m]
  {
    hide MetaBelow, Ref, BlockOk, Quot, Rest;
    assert ByteOk(sup, fs, i, off);
    var p := DataPlace(sup, Quot(off, sup.bsize));
    assert RefOk(sup, fs, i, p);
    var b, at := Ref(sup, fs, i, p), Rest(off, sup.bsize);
    var here, there := fs.disk[b][at..at + m], Content(sup, fs, i)[off..off + m];
    forall j | 0 <= j < m ensures here[j] == there[j] {
      SameBlock(sup.bsize, off, m, off + j);
    }
  }

  // ---------------------------------------------------------------- how many blocks a write touches

  /** The number of blocks that `n` bytes from `off` on lie in. */
  function Span(off: nat, n: nat, bs: nat): int
    requires bs > 0
  {
    if n == 0 then 0 else Quot(off + n - 1, bs) - Quot(off, bs) + 1
  }

  lemma QuotMonotone(a: nat, b: nat, bs: nat)
    requires bs > 0 && a <= b
    ensures Quot(a, bs) <= Quot(b, bs)
  {
    var qa, qb := a / bs, b / bs;
    if qb < qa {
      assert qb * bs + bs <= qa * bs by {
        assert (qb + 1) * bs <= qa * bs;
      }
    }
  }

  lemma SpanBound(off: nat, n: nat, bs: nat, k: nat)
    requires bs > 0 && n <= k * bs
    ensures Span(off, n, bs) <= (if Rest(off, bs) == 0 then k else k + 1)
  {
    if n > 0 {
      var q, r := Quot(off, bs), Rest(off, bs);
      assert off == q * bs + r;
      var more := if r == 0 then k else k + 1;
      RoundUp(q, r, k, bs, more);
      hide Quot, Rest;
      QuotBelow(off + n - 1, q + more, bs);
    }
  }

  lemma RoundUp(q: nat, r: nat, k: nat, bs: nat, more: nat)
    requires r < bs && more == if r == 0 then k else k + 1
    ensures q * bs + r + k * bs <= (q + more) * bs
  {
    assert (q + more) * bs == q * bs + more * bs;
  }

  lemma QuotBelow(a: nat, q: nat, bs: nat)
    requires bs > 0 && a < q * bs
    ensures Quot(a, bs) < q
  {
    if a / bs >= q {
      assert (a / bs) * bs >= q * bs;
    }
  }

  /** The block before an unaligned offset inside the file, or at its end, is already there. */
  lemma UnalignedHasBlock(sup: Super, fs: Fs, i: nat, off: nat)
    requires Inv(sup, fs) && i < sup.ninodes && off <= fs.inodes[i].size && Rest(off, sup.bsize) != 0
    ensures HasBlock(sup, fs, i, off)
  {
    hide MetaBelow, Ref, BlockOk, RefOk;
    QuotBefore(off, sup.bsize);
    hide Quot, Rest;
    assert ByteOk(sup, fs, i, off - 1);
  }

  lemma QuotBefore(off: nat, bs: nat)
    requires bs > 0 && Rest(off, bs) != 0
    ensures off > 0 && Quot(off - 1, bs) == Quot(off, bs)
  {
    var q, r := off / bs, off % bs;
    assert off == q * bs + r;
    DivModUnique(off - 1, bs, q, r - 1);
  }
}
