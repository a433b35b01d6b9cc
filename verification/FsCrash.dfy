/**
  Files across a crash: the operations of FileSystem run as one transaction of the log over the buffer
  cache.  A kernel that starts after the crash recovers the log and finds the files on the disk.
*/
module FsCrash {
  import opened Machine
  import opened FsLayout
  import opened FsInodes
  import opened FileSystem
  import opened FsContent
  import opened FsImage
  import opened LogCrash
  import opened Log
  import opened BufferCache

  /** A commit that is cut short: the cache when it starts, the device, the list and the cached contents of
      the logged blocks, how many block writes get through, the disk then, where later recoveries are cut
      short, and the disk that the last recovery starts from. */
  datatype Crash = Crash(cache: Snap, dev: nat, lh: seq<nat>, data: seq<LogCrash.Block>, k: nat, d: Disk,
    crashes: seq<nat>, e: Disk)

  /** What Logger.Commit starts from. */
  ghost predicate Staged(g: Geometry, x: Crash) {
    && Ok(x.cache) && Tidy(x.cache) && Sized(x.cache, x.dev, g) && Pinned(x.cache, x.dev, x.lh) && Listed(g, x.lh)
    && Shows(x.cache, x.dev, x.lh, x.data)
  }

  /** The crash is one of Logger.Commit's. */
  ghost predicate OfCommit(g: Geometry, x: Crash) {
    && Staged(g, x)
    && var base := x.cache.disk[x.dev];
       && base[g.start] != [] && base[g.start][0] == 0 && |x.lh| + 1 <= |base[g.start]|
       && var ws := CommitWrites(g, base[g.start], x.lh, x.data);
          && x.k <= |ws| && (forall w :: w in ws[..x.k] ==> w.bno < |base|)
          && x.d == After(base, ws[..x.k]) && CrashedRecoveries(g, x.d, x.crashes, x.e)
  }

  /** The disk holds `fs`, the listed blocks are the logged ones, and in each of them the cache holds `fs'`. */
  ghost predicate OfFiles(sup: Super, g: Geometry, fs: Fs, fs': Fs, logged: set<nat>, x: Crash)
    requires Shape(sup, fs) && Shape(sup, fs') && InodesFit(sup)
  {
    && (forall b :: b in x.lh <==> b in logged) && |x.data| == |x.lh|
    && x.dev in x.cache.disk && DiskIs(sup, g, fs, x.cache.disk[x.dev])
    && forall t: nat :: t < |x.lh| ==> BlockIs(sup, fs', x.lh[t], Bytes(x.data[t]))
  }

  /** A block that was not logged is the same in both file systems. */
  lemma UnloggedBlock(sup: Super, fs: Fs, fs': Fs, logged: set<nat>, b: nat, blk: FsLayout.Block)
    requires Shape(sup, fs) && Shape(sup, fs') && InodesFit(sup) && Transaction(sup, fs, fs', {}, logged)
             && b !in logged
    requires BlockIs(sup, fs, b, blk)
    ensures BlockIs(sup, fs', b, blk)
  {
    hide GetInode, MetaBelow;
    forall i: nat | HasInode(sup, i, b) ensures GetInode(sup, blk, i) == fs'.inodes[i] {
      assert fs'.inodes[i] == fs.inodes[i];
    }
  }

  /** Once the header is written, every block outside the log recovers to that of the new file system. */
  lemma RecoversNew(sup: Super, g: Geometry, fs: Fs, fs': Fs, logged: set<nat>, x: Crash, b: nat)
    requires Layout(sup, g) && Shape(sup, fs) && Shape(sup, fs') && Transaction(sup, fs, fs', {}, logged)
    requires Staged(g, x) && OfFiles(sup, g, fs, fs', logged, x) && g.Home(b)
    ensures OnDisk(x.cache, x.dev, b) && BlockIs(sup, fs', b, Bytes(View(x.cache, x.dev, b)))
  {
    hide Shape, Transaction, Covers, BlockIs, Bytes, View, Ok, Tidy, Sized, Pinned, CrashedRecoveries, After,
      CommitWrites;
    if b in x.lh {
      var t: nat :| t < |x.lh| && x.lh[t] == b;
      assert x.data[t] == View(x.cache, x.dev, b);
    } else {
      TidyClean(x.cache, x.dev, g, x.lh, b);
      UnloggedBlock(sup, fs, fs', logged, b, Bytes(View(x.cache, x.dev, b)));
    }
  }

  /** Crash in the commit of a transaction and in any number of recoveries: the disk then holds the old file
      system or the new one, all of it, and the new one exactly when the header was written. */
  lemma CrashKeepsFiles(sup: Super, g: Geometry, fs: Fs, fs': Fs, logged: set<nat>, x: Crash)
    requires Layout(sup, g) && Inv(sup, fs) && Inv(sup, fs') && Shape(sup, fs) && Shape(sup, fs')
             && Transaction(sup, fs, fs', {}, logged)
    requires OfCommit(g, x) && OfFiles(sup, g, fs, fs', logged, x)
    ensures HeaderOk(g, x.e) && DiskOk(g, Recover(g, x.e))
    ensures var found, end := Recover(g, x.e), if x.k > |x.lh| then fs' else fs;
            && DiskIs(sup, g, end, found)
            && Inv(sup, Mounted(sup, found).(owner := end.owner))
               && FilesOf(sup, Mounted(sup, found)) == FilesOf(sup, end)
  {
    LayoutParts(sup, g);
    CommitIsAtomic(x.cache, x.dev, g, x.lh, x.data, x.k, x.d, x.crashes, x.e);
    hide Layout, Inv, Shape, Transaction, OfCommit, View, BlockIs, Bytes, Recover, Mounted, FilesOf, HeaderOk;
    var found, end := Recover(g, x.e), if x.k > |x.lh| then fs' else fs;
    forall b: nat | b < sup.size && g.Home(b) ensures BlockIs(sup, end, b, Bytes(found[b])) {
      RecoversNew(sup, g, fs, fs', logged, x, b);
    }
    MountedFiles(sup, g, end, found);
  }

  /** The files found by a kernel that starts on the disk `e`. */
  ghost function FilesAfter(sup: Super, g: Geometry, e: Disk): seq<seq<byte>>
    requires Layout(sup, g) && HeaderOk(g, e) && DiskOk(g, Recover(g, e))
  {
    FilesOf(sup, Mounted(sup, Recover(g, e)))
  }

  /** A crash in the commit of the transaction that led from `fs` to `fs'`, their inodes being those
      that iupdate wrote. */
  ghost predicate CrashOf(sup: Super, g: Geometry, fs: Fs, fs': Fs, logged: set<nat>, x: Crash) {
    Shape(sup, fs) && Shape(sup, fs') && Layout(sup, g) && OfCommit(g, x) && OfFiles(sup, g, fs, fs', logged, x)
  }

  lemma EveryCrash(sup: Super, g: Geometry, fs: Fs, fs': Fs, logged: set<nat>)
    requires Layout(sup, g) && Inv(sup, fs) && Inv(sup, fs') && Shape(sup, fs) && Shape(sup, fs')
             && Transaction(sup, fs, fs', {}, logged)
    ensures forall x: Crash :: CrashOf(sup, g, fs, fs', logged, x) ==>
              && HeaderOk(g, x.e) && DiskOk(g, Recover(g, x.e))
              && FilesAfter(sup, g, x.e) == if x.k > |x.lh| then FilesOf(sup, fs') else FilesOf(sup, fs)
  {
    hide Layout, Inv, Shape, Transaction, OfCommit, OfFiles, Recover, Mounted, FilesOf, HeaderOk, DiskOk;
    forall x: Crash | CrashOf(sup, g, fs, fs', logged, x)
      ensures HeaderOk(g, x.e) && DiskOk(g, Recover(g, x.e))
      ensures FilesAfter(sup, g, x.e) == if x.k > |x.lh| then FilesOf(sup, fs') else FilesOf(sup, fs)
    {
      CrashKeepsFiles(sup, g, fs, fs', logged, x);
    }
  }

  /** filewrite cut short by a crash in the commit of any of its chunks: the file found has the bytes of the chunks
      before it, and of that chunk exactly when its header write got through; all other files are as they were. */
  method FileWriteDurably(files: FileSystem, i: nat, src: seq<byte>, torn: nat, off0: nat, n: int, maxOp: nat,
                          ghost g: Geometry)
    returns (ret: int, off: nat, faulted: bool, ghost chunks: seq<Chunk>)
    requires files.Valid() && files.inodes == files.dinodes && Layout(files.sup, g)
    requires i < files.sup.ninodes && off0 < W32 && n < W32 && maxOp >= 6
    modifies files
    ensures files.Valid() && files.inodes == files.dinodes && off0 <= off
            && ret == (if n >= 0 && off == off0 + n then n else -1)
    ensures off < off0 + n ==> WhyShort(files.sup, old(files.Snap()), files.Snap(), i, off0, off, n, |src|, maxOp,
            faulted)
    ensures FileNow(files.sup, old(files.Snap()), files.Snap(), i, off0, src, off - off0, if n < 0 then 0
            else n, faulted)
    ensures ChunksJoin(chunks, old(files.Snap()))
            && (!faulted ==> ChunksEnd(chunks, old(files.Snap())) == (files.Snap(), off - off0))
    ensures forall c: nat, x: Crash ::
              c < |chunks| && CrashOf(files.sup, g, chunks[c].fs, chunks[c].fs', chunks[c].logged, x) ==>
              && HeaderOk(g, x.e) && DiskOk(g, Recover(g, x.e))
              && FilesAfter(files.sup, g, x.e)
                 == WrittenTo(old(files.Files()), i, off0, src, Kept(chunks[c], x))
  {
    hide Inv, Layout, HeaderOk, DiskOk, Transaction, FilesOf, Recover, CrashOf, FilesAfter, Shape, FileNow, WrittenTo,
      ChunkSet, WhyShort;
    ghost var sup, fs, goal := files.sup, files.Snap(), if n < 0 then 0 else n;
    ValidShape(sup, fs);
    ShapeSizes(sup, fs);
    var r, o, f, most, cs := files.FileWrite(i, src, torn, off0, n, maxOp);
    ret, off, faulted, chunks := r, o, f, cs;
    FileNowInv(sup, fs, files.Snap(), i, off0, src, off - off0, goal, faulted);
    forall c: nat, x: Crash | c < |chunks| && CrashOf(sup, g, chunks[c].fs, chunks[c].fs', chunks[c].logged, x)
      ensures HeaderOk(g, x.e) && DiskOk(g, Recover(g, x.e))
      ensures FilesAfter(sup, g, x.e) == WrittenTo(FilesOf(sup, fs), i, off0, src, Kept(chunks[c], x))
    {
      ChunkCrash(sup, g, fs, i, off0, src, goal, maxOp, chunks[c], x);
    }
  }

  /** How many bytes survive the crash `x` in the commit of chunk `c`. */
  function Kept(c: Chunk, x: Crash): nat {
    if x.k > |x.lh| then c.done' else c.done
  }

  /** The files with the first `done` bytes of `src` spliced into file `i`. */
  function WrittenTo(files: seq<seq<byte>>, i: nat, off: nat, src: seq<byte>, done: nat): seq<seq<byte>> {
    if i < |files| && off <= |files[i]| && done <= |src| then files[i := Splice(files[i], off, src[..done])] else files
  }

  lemma FileNowInv(sup: Super, fs0: Fs, fs: Fs, i: nat, off0: nat, src: seq<byte>, done: nat, n: nat, faulted: bool)
    requires FileNow(sup, fs0, fs, i, off0, src, done, n, faulted)
    ensures Inv(sup, fs) && Shape(sup, fs) && Shape(sup, fs0)
  {
  }

  lemma FileNowFiles(sup: Super, fs0: Fs, fs: Fs, i: nat, off0: nat, src: seq<byte>, done: nat, n: nat)
    requires FileNow(sup, fs0, fs, i, off0, src, done, n, false)
    ensures Shape(sup, fs) && Shape(sup, fs0) && FilesOf(sup, fs) == WrittenTo(FilesOf(sup, fs0), i, off0, src, done)
  {
    hide Inv, MetaBelow, Content, FilesOf, Splice;
  }

  lemma ChunkCrash(sup: Super, g: Geometry, fs: Fs, i: nat, off0: nat, src: seq<byte>, n: nat, maxOp: nat, c: Chunk,
                   x: Crash)
    requires Layout(sup, g) && sup.ipb > 0 && sup.bsize > 0 && maxOp >= 6 && ChunkOk(sup, fs, i, off0, src, n, maxOp, c)
             && CrashOf(sup, g, c.fs, c.fs', c.logged, x) && Shape(sup, fs)
    ensures HeaderOk(g, x.e) && DiskOk(g, Recover(g, x.e))
    ensures FilesAfter(sup, g, x.e) == WrittenTo(FilesOf(sup, fs), i, off0, src, Kept(c, x))
  {
    hide Inv, Layout, HeaderOk, DiskOk, Transaction, FilesOf, Recover, CrashOf, FilesAfter, Shape, FileNow, WrittenTo,
      ChunkSet, WhyShort;
    FileNowInv(sup, fs, c.fs, i, off0, src, c.done, n, false);
    FileNowInv(sup, fs, c.fs', i, off0, src, c.done', n, false);
    EveryCrash(sup, g, c.fs, c.fs', c.logged);
    FileNowFiles(sup, fs, c.fs, i, off0, src, c.done, n);
    FileNowFiles(sup, fs, c.fs', i, off0, src, c.done', n);
  }
}
