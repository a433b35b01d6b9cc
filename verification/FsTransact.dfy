/**
  A transaction from end to end: file operations, their blocks through the buffer cache into the log, the
  commit, and the block writes that reach the disk.
*/
module FsTransact {
  import opened Machine
  import opened FsLayout
  import opened FsInodes
  import opened FileSystem
  import opened FsImage
  import opened FsCrash
  import opened LogCrash
  import opened Log
  import opened BufferCache

  ghost predicate Clear(g: Geometry, d: Disk) {
    g.start < |d| && d[g.start] != [] && d[g.start][0] == 0
  }

  /** Between transactions: the disk holds the file system, the log is clear, nothing is listed and nobody holds a
      buffer. */
  ghost predicate Holding(files: FileSystem, log: Logger)
    reads files, log, log.cache, log.cache.buf
  {
    && files.Valid() && Shape(files.sup, files.Snap()) && files.inodes == files.dinodes && SizesFit(files.inodes)
    && Layout(files.sup, log.g) && log.Valid() && Quiet(log.cache.Now()) && log.lh == []
    && log.dev in log.cache.disk && Clear(log.g, log.cache.disk[log.dev])
    && DiskIs(files.sup, log.g, files.Snap(), log.cache.disk[log.dev])
  }

  method Enumerate(s: set<nat>) returns (q: seq<nat>)
    ensures |q| == |s| && Distinct(q) && forall b :: b in q <==> b in s
  {
    q := [];
    var rest := s;
    while rest != {}
      invariant rest <= s && |q| + |rest| == |s| && Distinct(q) && forall b :: b in q <==> b in s && b !in rest
      decreases |rest|
    {
      var b :| b in rest;
      q, rest := q + [b], rest - {b};
    }
  }

  /** What operations log lies outside the log. */
  lemma LoggableHome(sup: Super, g: Geometry, b: nat)
    requires Layout(sup, g) && Loggable(sup, b)
    ensures g.Home(b)
  {
    hide Quot;
    if x: nat :| x < sup.size && b == MapBlock(sup, x) {
      assert MapBlock(sup, x) < sup.nmeta;
    } else if i: nat :| i < sup.ninodes && b == InodeBlock(sup, i) {
      assert InodeBlock(sup, i) < sup.nmeta;
    }
  }

  lemma LoggedHome(sup: Super, g: Geometry, fs: Fs, fs': Fs, logged: set<nat>, todo: seq<nat>)
    requires Layout(sup, g) && sup.ipb > 0 && Transaction(sup, fs, fs', {}, logged)
    requires forall b :: b in todo <==> b in logged
    ensures forall b :: b in todo ==> g.Home(b)
  {
    hide Layout, Loggable;
    forall b | b in todo ensures g.Home(b) {
      LoggableHome(sup, g, b);
    }
  }

  lemma AllEncodable(sup: Super, fs: Fs)
    requires Inv(sup, fs) && Shape(sup, fs) && SizesFit(fs.inodes)
    ensures forall k: nat :: k < sup.ninodes ==> Encodable(sup, fs.inodes[k])
  {
    hide Inv, Encodable;
    forall k: nat | k < sup.ninodes ensures Encodable(sup, fs.inodes[k]) {
      InodeEncodable(sup, fs, k);
    }
  }

  /** The cache shows `fs` in each of the first `n` blocks of `todo`. */
  ghost predicate Stored(sup: Super, fs: Fs, c: Snap, dev: nat, todo: seq<nat>, n: nat)
    requires Shape(sup, fs) && InodesFit(sup)
  {
    forall t: nat :: t < n <= |todo| ==>
      OnDisk(c, dev, todo[t]) && BlockIs(sup, fs, todo[t], Bytes(View(c, dev, todo[t])))
  }

  lemma StoredMore(sup: Super, fs: Fs, c: Snap, d: Snap, dev: nat, todo: seq<nat>, n: nat, blk: FsLayout.Block)
    requires Shape(sup, fs) && InodesFit(sup) && n < |todo| && Distinct(todo) && Stored(sup, fs, c, dev, todo, n)
    requires OnDisk(c, dev, todo[n]) && |blk| % 4 == 0 && ViewsSet(c, d, dev, todo[n], Words(blk))
    requires BlockIs(sup, fs, todo[n], blk)
    ensures Stored(sup, fs, d, dev, todo, n + 1)
  {
    hide BlockIs, View, Bytes, Words, Shape;
    BytesWords(blk);
    forall t: nat | t < n
      ensures OnDisk(d, dev, todo[t]) && BlockIs(sup, fs, todo[t], Bytes(View(d, dev, todo[t])))
    {
      assert OnDisk(c, dev, todo[t]) && View(d, dev, todo[t]) == View(c, dev, todo[t]);
    }
  }

  lemma StoredSame(sup: Super, fs: Fs, c: Snap, d: Snap, dev: nat, todo: seq<nat>, n: nat)
    requires Shape(sup, fs) && InodesFit(sup) && Stored(sup, fs, c, dev, todo, n) && SameViews(c, d)
    ensures Stored(sup, fs, d, dev, todo, n)
  {
    hide BlockIs, View, Bytes, Shape;
    forall t: nat | t < n <= |todo|
      ensures OnDisk(d, dev, todo[t]) && BlockIs(sup, fs, todo[t], Bytes(View(d, dev, todo[t])))
    {
      assert OnDisk(c, dev, todo[t]) && View(d, dev, todo[t]) == View(c, dev, todo[t]);
    }
  }

  /** The operations' blocks go through the cache into the log's list. */
  method WriteBack(files: FileSystem, log: Logger, todo: seq<nat>)
    requires Layout(files.sup, log.g) && Shape(files.sup, files.Snap())
    requires forall k: nat :: k < files.sup.ninodes ==> Encodable(files.sup, files.inodes[k])
    requires log.Valid() && Quiet(log.cache.Now()) && log.lh == [] && log.outstanding >= 1
    requires Distinct(todo) && |todo| <= log.g.size && |todo| < log.cache.nbuf
             && forall b :: b in todo ==> log.g.Home(b)
    modifies log`lh, log.cache, log.cache.buf
    ensures log.Valid() && Quiet(log.cache.Now()) && log.lh == todo
    ensures log.cache.disk == old(log.cache.disk) && log.cache.trace == old(log.cache.trace)
    ensures Stored(files.sup, files.Snap(), log.cache.Now(), log.dev, todo, |todo|)
  {
    hide Layout, Shape, Encodable, Quiet, Sized, Pinned, Ok, View, SameViews, ViewsSet, Stored, BlockAfter, Bytes,
      Words;
    LayoutParts(files.sup, log.g);
    ghost var fs := files.Snap();
    NothingStored(files.sup, fs, log.cache.Now(), log.dev, todo);
    for t := 0 to |todo|
      invariant log.Valid() && Quiet(log.cache.Now()) && log.lh == todo[..t]
      invariant log.cache.disk == old(log.cache.disk) && log.cache.trace == old(log.cache.trace)
      invariant Stored(files.sup, fs, log.cache.Now(), log.dev, todo, t)
    {
      var b := todo[t];
      assert b in todo && log.g.Home(b) && b !in todo[..t];
      ghost var c0 := log.cache.Now();
      var was := log.ReadBlock(b);
      ghost var c1 := log.cache.Now();
      SameDisk(c0, c1);
      SizedBlock(c0, log.dev, log.g, b);
      StoredSame(files.sup, fs, c0, c1, log.dev, todo, t);
      ShapeBlock(files.sup, fs, b);
      var blk := BlockAfter(files.sup, files.disk[b], files.inodes, b, Bytes(was));
      BlockAfterIs(files.sup, fs, b, Bytes(was));
      var r := log.WriteBlock(b, Words(blk));
      StoredMore(files.sup, fs, c1, log.cache.Now(), log.dev, todo, t, blk);
      assert todo[..t + 1] == todo[..t] + [b];
    }
    assert todo[..|todo|] == todo;
  }

  lemma NothingStored(sup: Super, fs: Fs, c: Snap, dev: nat, todo: seq<nat>)
    requires Shape(sup, fs) && InodesFit(sup)
    ensures Stored(sup, fs, c, dev, todo, 0)
  {
  }

  lemma ShapeBlock(sup: Super, fs: Fs, b: nat)
    requires Shape(sup, fs) && b < sup.size
    ensures b < |fs.disk| && |fs.disk[b]| == sup.bsize && |fs.inodes| == sup.ninodes && sup.bsize % 4 == 0
  {
  }

  // ---------------------------------------------------------------- the commit

  /** After the first `k` of the block writes `ws`, and recoveries cut short as in `crashes`, the disk is `e`. */
  ghost predicate Cut(g: Geometry, base: Disk, ws: seq<Write>, k: nat, crashes: seq<nat>, e: Disk) {
    && k <= |ws| && (forall w :: w in ws[..k] ==> w.bno < |base|)
    && CrashedRecoveries(g, After(base, ws[..k]), crashes, e)
  }

  /** The recovered disk has a sound file system with these files. */
  ghost predicate Found(sup: Super, g: Geometry, e: Disk, files: seq<seq<byte>>)
    requires Layout(sup, g)
  {
    && HeaderOk(g, e) && DiskOk(g, Recover(g, e)) && FilesAfter(sup, g, e) == files
    && Sound(sup, Mounted(sup, Recover(g, e)))
  }

  ghost predicate Sound(sup: Super, fs: Fs) {
    exists owner: seq<Owner> :: Inv(sup, fs.(owner := owner))
  }

  /** Crash `x` without the crash: the cache is about to commit the step from `fs` to `fs'`. */
  ghost predicate Committing(sup: Super, g: Geometry, fs: Fs, fs': Fs, logged: set<nat>, x: Crash) {
    && Shape(sup, fs) && Shape(sup, fs') && Inv(sup, fs) && Inv(sup, fs') && Layout(sup, g)
    && Transaction(sup, fs, fs', {}, logged) && Staged(g, x) && OfFiles(sup, g, fs, fs', logged, x)
    && Clear(g, x.cache.disk[x.dev]) && |x.lh| + 1 <= |x.cache.disk[x.dev][g.start]|
  }

  /** However its block writes are cut short, the commit leaves the old files or the new ones. */
  lemma EveryCut(sup: Super, g: Geometry, fs: Fs, fs': Fs, logged: set<nat>, x: Crash)
    requires Committing(sup, g, fs, fs', logged, x)
    ensures var base := x.cache.disk[x.dev];
            var ws := CommitWrites(g, base[g.start], x.lh, x.data);
            forall k: nat, crashes: seq<nat>, e: Disk :: Cut(g, base, ws, k, crashes, e) ==>
              Found(sup, g, e, if k > |x.lh| then FilesOf(sup, fs') else FilesOf(sup, fs))
  {
    var base := x.cache.disk[x.dev];
    var ws := CommitWrites(g, base[g.start], x.lh, x.data);
    hide Shape, Inv, Layout, Transaction, Staged, CommitWrites, After, CrashedRecoveries, HeaderOk, DiskOk, Recover,
      FilesOf, Mounted, BlockIs, DiskIs;
    forall k: nat, crashes: seq<nat>, e: Disk | Cut(g, base, ws, k, crashes, e)
      ensures Found(sup, g, e, if k > |x.lh| then FilesOf(sup, fs') else FilesOf(sup, fs))
    {
      var y := x.(k := k, d := After(base, ws[..k]), crashes := crashes, e := e);
      assert Staged(g, y) by { SameStage(g, x, y); }
      CrashKeepsFiles(sup, g, fs, fs', logged, y);
    }
  }

  lemma SameStage(g: Geometry, x: Crash, y: Crash)
    requires Staged(g, x) && y == x.(k := y.k, d := y.d, crashes := y.crashes, e := y.e)
    ensures Staged(g, y)
  {
  }

  /** A commit that is not cut short leaves a disk that holds the new file system, and a clear log. */
  lemma WholeCommit(sup: Super, g: Geometry, fs: Fs, fs': Fs, logged: set<nat>, x: Crash)
    requires Committing(sup, g, fs, fs', logged, x)
    ensures var base := x.cache.disk[x.dev];
            var ws := CommitWrites(g, base[g.start], x.lh, x.data);
            && (forall w :: w in ws ==> w.bno < |base|)
            && Clear(g, After(base, ws)) && DiskIs(sup, g, fs', After(base, ws))
  {
    LayoutParts(sup, g);
    CommitSettles(x.cache, x.dev, g, x.lh, x.data);
    hide Shape, Inv, Layout, Transaction, CommitWrites, After, BlockIs, View, Bytes, Ok, Tidy, Sized, Pinned, Shows;
    var base := x.cache.disk[x.dev];
    var d := After(base, CommitWrites(g, base[g.start], x.lh, x.data));
    forall b: nat | b < sup.size && g.Home(b) ensures BlockIs(sup, fs', b, Bytes(d[b])) {
      RecoversNew(sup, g, fs, fs', logged, x, b);
    }
  }

  /** What the cache shows in the logged blocks when the commit starts. */
  ghost function Showing(c: Snap, dev: nat, lh: seq<nat>): (data: seq<LogCrash.Block>)
    requires forall t :: 0 <= t < |lh| ==> OnDisk(c, dev, lh[t])
    ensures Shows(c, dev, lh, data)
  {
    seq(|lh|, t requires 0 <= t < |lh| => View(c, dev, lh[t]))
  }

  /** The blocks are in the log's list and in the cache: ready to commit. */
  lemma ReadyToCommit(sup: Super, g: Geometry, fs: Fs, fs': Fs, logged: set<nat>, c: Snap, dev: nat, lh: seq<nat>)
    requires Shape(sup, fs) && Shape(sup, fs') && Inv(sup, fs) && Inv(sup, fs') && Layout(sup, g)
    requires Transaction(sup, fs, fs', {}, logged) && forall b :: b in lh <==> b in logged
    requires Ok(c) && Quiet(c) && Sized(c, dev, g) && Pinned(c, dev, lh) && Listed(g, lh)
    requires Stored(sup, fs', c, dev, lh, |lh|) && dev in c.disk && Clear(g, c.disk[dev])
             && DiskIs(sup, g, fs, c.disk[dev])
    ensures |lh| + 1 <= |c.disk[dev][g.start]| && forall t :: 0 <= t < |lh| ==> OnDisk(c, dev, lh[t])
    ensures Committing(sup, g, fs, fs', logged, Crash(c, dev, lh, Showing(c, dev, lh), 0, [], [], []))
  {
    SizedDiskOk(c, dev, g);
    hide Shape, Inv, Layout, Transaction, BlockIs, View, Bytes, Ok, Sized, Pinned, DiskIs;
    QuietTidy(c);
    forall t: nat | t < |lh| ensures OnDisk(c, dev, lh[t]) {}
  }

  lemma QuietTidy(c: Snap)
    requires Quiet(c)
    ensures Tidy(c)
  {
  }

  /** Every call returns and delivers what its file has: see Shown.  `states` are the file systems after each call. */
  ghost predicate Answered(sup: Super, files: seq<seq<byte>>, ops: seq<FileOp>, rs: seq<int>, outs: seq<seq<byte>>,
                           states: seq<Fs>)
  {
    && |rs| == |outs| == |states| == |ops|
    && forall k: nat :: k < |ops| ==> Shown(sup, files, ops, rs, outs, states, k)
  }

  /** A committed transaction: the disk before it, its block writes, how many of them come before the header is written,
      the files before and after it, and the file systems after each of its calls. */
  datatype Step = Step(base: Disk, ws: seq<Write>, header: nat, before: seq<seq<byte>>, after: seq<seq<byte>>,
                       states: seq<Fs>)

  /** If any prefix of the block writes reaches the disk, and any number of recoveries are cut short after that, a
      kernel finds the files from before or those from after, the latter exactly when the header was written. */
  ghost predicate Atomic(sup: Super, g: Geometry, s: Step)
    requires Layout(sup, g)
  {
    forall k: nat, crashes: seq<nat>, e: Disk :: Cut(g, s.base, s.ws, k, crashes, e) ==>
      Found(sup, g, e, if k > s.header then s.after else s.before)
  }

  /** One transaction of any sequence of writei, readi and itrunc calls, by one process alone.  It panics exactly when
      the operations log more blocks than the log has, or than there are buffers besides one.  Otherwise the files
      become what the sequence makes of them, atomically, and the disk is ready for the next transaction. */
  method Transact(files: FileSystem, log: Logger, ops: seq<FileOp>)
    returns (ok: bool, rs: seq<int>, outs: seq<seq<byte>>, ghost ws: seq<Write>, ghost states: seq<Fs>)
    requires Holding(files, log) && forall k :: 0 <= k < |ops| ==> OpOk(files.sup, ops[k])
    modifies files, log, log.cache, log.cache.buf
    ensures ok <==> |files.logged| <= log.g.size && |files.logged| < log.cache.nbuf
    ensures Answered(files.sup, old(files.Files()), ops, rs, outs, states)
    ensures ok ==> Holding(files, log) && files.Files() == Replay(old(files.Files()), ops, rs)
    ensures ok ==> Emitted(old(log.cache.disk), old(log.cache.trace), log.cache.disk, log.cache.trace, log.dev, ws)
    ensures ok ==> Atomic(files.sup, log.g,
              Step(old(log.cache.disk[log.dev]), ws, |files.logged|, old(files.Files()), files.Files(), states))
  {
    hide Shape, Inv, Layout, Transaction, BlockIs, View, Bytes, Ok, Sized, Pinned, DiskIs, Quiet, Calm, Held, Stored,
      CommitWrites, Cut, Found, Committing, Replay, Shown, FilesOf, SizesFit, Encodable, Shows, HeaderOk, DiskOk;
    ghost var sup, fs, g, dev := files.sup, files.Snap(), log.g, log.dev;
    ShapeSizes(sup, fs);
    files.logged := {};
    ws := [];
    var rs1, outs1, after := files.Perform(ops);
    rs, outs, states := rs1, outs1, after;
    ghost var fs' := files.Snap();
    ValidShape(sup, fs');
    AllEncodable(sup, fs');
    var todo := Enumerate(files.logged);
    ok := |todo| <= log.g.size && |todo| < log.cache.nbuf;
    if ok {
      LoggedHome(sup, g, fs, fs', files.logged, todo);
      log.outstanding := 1;
      WriteBack(files, log, todo);
      log.outstanding := 0;
      ghost var c := log.cache.Now();
      ReadyToCommit(sup, g, fs, fs', files.logged, c, dev, todo);
      ghost var x := Crash(c, dev, todo, Showing(c, dev, todo), 0, [], [], []);
      EveryCut(sup, g, fs, fs', files.logged, x);
      WholeCommit(sup, g, fs, fs', files.logged, x);
      ws := CommitWrites(g, c.disk[dev][g.start], todo, x.data);
      QuietCalm(c, dev, g, todo);
      log.Commit(x.data);
      QuietAgain(c, log.cache.Now());
    }
  }

  // ---------------------------------------------------------------- starting from a disk

  lemma MountedIs(sup: Super, g: Geometry, d: Disk, owner: seq<Owner>)
    requires Layout(sup, g) && DiskOk(g, d) && Inv(sup, Mounted(sup, d).(owner := owner))
    ensures var fs := Mounted(sup, d).(owner := owner);
            Shape(sup, fs) && DiskIs(sup, g, fs, d) && SizesFit(fs.inodes)
              && FilesOf(sup, fs) == FilesOf(sup, Mounted(sup, d))
  {
    hide Inv, MetaBelow, Bytes, DinodeWord, Word, Content;
    var fs := Mounted(sup, d).(owner := owner);
    ValidShape(sup, fs);
    forall b: nat | b < sup.size && g.Home(b) ensures BlockIs(sup, fs, b, Bytes(d[b])) {}
    forall k: nat | k < sup.ninodes ensures Content(sup, fs, k) == Content(sup, Mounted(sup, d), k) {
      UntouchedContent(sup, fs, Mounted(sup, d), k);
    }
  }

  /** A kernel starts: the log is recovered and the file system on the recovered disk is the one to work on. */
  method Boot(log: Logger, sup: Super) returns (files: FileSystem)
    requires Layout(sup, log.g) && Good(log.cache, log.dev, log.g, []) && Quiet(log.cache.Now()) && log.cache.nbuf >= 2
    requires var e := log.cache.disk[log.dev];
             && HeaderOk(log.g, e) && DiskOk(log.g, Recover(log.g, e)) && Sound(sup, Mounted(sup, Recover(log.g, e)))
    modifies log`lh, log.cache, log.cache.buf
    ensures fresh(files) && files.sup == sup && Holding(files, log)
    ensures files.Files() == FilesAfter(sup, log.g, old(log.cache.disk[log.dev]))
  {
    hide Inv, Layout, Mounted, HeaderOk, Recover, DiskIs, FilesOf, SizesFit, Quiet, Shape, Ok, Sized, Pinned;
    ghost var e := SizedDisk(log.cache.Now(), log.dev, log.g);
    RecoverClears(log.g, e);
    log.Recover();
    var d := log.cache.disk[log.dev];
    assert d == Recover(log.g, e) by { RecoverIs(log.g, e); }
    LayoutParts(sup, log.g);
    ghost var owner :| Inv(sup, Mounted(sup, d).(owner := owner));
    MountedIs(sup, log.g, d, owner);
    var found := Mounted(sup, d);
    files := new FileSystem.Load(sup, found.disk, found.inodes, owner);
  }

  lemma RecoverIs(g: Geometry, d: Disk)
    requires HeaderOk(g, d)
    ensures (forall w :: w in RecoverWrites(g, d) ==> w.bno < |d|) && Recover(g, d) == After(d, RecoverWrites(g, d))
  {
    RecoverInRange(g, d);
  }

  // ---------------------------------------------------------------- any number of transactions

  /** The files after the first `n` transactions, of which `rss` are the return values. */
  function ReplayAll(files: seq<seq<byte>>, txns: seq<seq<FileOp>>, rss: seq<seq<int>>, n: nat): seq<seq<byte>>
    requires n <= |txns| && n <= |rss|
  {
    if n == 0 then files else Replay(ReplayAll(files, txns, rss, n - 1), txns[n - 1], rss[n - 1])
  }

  lemma {:induction false} ReplayAllSame(files: seq<seq<byte>>, txns: seq<seq<FileOp>>, rss: seq<seq<int>>,
                          rs: seq<int>, n: nat)
    requires n <= |txns| && n <= |rss|
    ensures ReplayAll(files, txns, rss + [rs], n) == ReplayAll(files, txns, rss, n)
    decreases n
  {
    if n > 0 {
      ReplayAllSame(files, txns, rss, rs, n - 1);
    }
  }

  /** All block writes of the first `n` steps. */
  function WritesOf(steps: seq<Step>, n: nat): seq<Write>
    requires n <= |steps|
  {
    if n == 0 then [] else WritesOf(steps, n - 1) + steps[n - 1].ws
  }

  lemma {:induction false} WritesOfSame(steps: seq<Step>, s: Step, n: nat)
    requires n <= |steps|
    ensures WritesOf(steps + [s], n) == WritesOf(steps, n)
    decreases n
  {
    if n > 0 {
      WritesOfSame(steps, s, n - 1);
    }
  }

  /** Step `j` of a run on the disk `base`: it starts from the disk that the writes of the steps before it leave, is
      atomic, takes the files from those after `j` transactions to those after `j + 1`, and answers accordingly. */
  ghost predicate StepOk(sup: Super, g: Geometry, base: Disk, files: seq<seq<byte>>, txns: seq<seq<FileOp>>,
                         rss: seq<seq<int>>, outss: seq<seq<seq<byte>>>, steps: seq<Step>, j: nat)
    requires Layout(sup, g) && j < |steps| == |rss| == |outss| <= |txns|
  {
    && (forall w :: w in WritesOf(steps, j) ==> w.bno < |base|) && steps[j].base == After(base, WritesOf(steps, j))
    && steps[j].before == ReplayAll(files, txns, rss, j) && steps[j].after == ReplayAll(files, txns, rss, j + 1)
    && Atomic(sup, g, steps[j]) && Answered(sup, steps[j].before, txns[j], rss[j], outss[j], steps[j].states)
  }

  lemma StepKept(sup: Super, g: Geometry, base: Disk, files: seq<seq<byte>>, txns: seq<seq<FileOp>>,
                 rss: seq<seq<int>>, outss: seq<seq<seq<byte>>>, steps: seq<Step>, rs: seq<int>, outs: seq<seq<byte>>,
                   s: Step, j: nat)
    requires Layout(sup, g) && j < |steps| == |rss| == |outss| < |txns|
             && StepOk(sup, g, base, files, txns, rss, outss, steps, j)
    ensures StepOk(sup, g, base, files, txns, rss + [rs], outss + [outs], steps + [s], j)
  {
    hide Layout, Atomic, After, Replay, WritesOf, ReplayAll, Answered;
    WritesOfSame(steps, s, j);
    ReplayAllSame(files, txns, rss, rs, j);
    ReplayAllSame(files, txns, rss, rs, j + 1);
  }

  lemma StepsMore(sup: Super, g: Geometry, base: Disk, files: seq<seq<byte>>, txns: seq<seq<FileOp>>,
                  rss: seq<seq<int>>, outss: seq<seq<seq<byte>>>, steps: seq<Step>, rs: seq<int>, outs: seq<seq<byte>>,
                    s: Step)
    requires Layout(sup, g) && |steps| == |rss| == |outss| < |txns| && Atomic(sup, g, s)
    requires Answered(sup, s.before, txns[|rss|], rs, outs, s.states)
    requires forall j: nat :: j < |steps| ==> StepOk(sup, g, base, files, txns, rss, outss, steps, j)
    requires (forall w :: w in WritesOf(steps, |steps|) ==> w.bno < |base|)
    requires s.base == After(base, WritesOf(steps, |steps|)) && s.before == ReplayAll(files, txns, rss, |rss|)
    requires s.after == Replay(s.before, txns[|rss|], rs)
    ensures forall j: nat :: j <= |steps| ==>
              StepOk(sup, g, base, files, txns, rss + [rs], outss + [outs], steps + [s], j)
    ensures ReplayAll(files, txns, rss + [rs], |rss| + 1) == s.after
    ensures WritesOf(steps + [s], |steps| + 1) == WritesOf(steps, |steps|) + s.ws
  {
    hide *;
    WritesOfNext(steps, s);
    ReplayAllNext(files, txns, rss, rs);
    StepNew(sup, g, base, files, txns, rss, outss, steps, rs, outs, s);
    forall j: nat | j <= |steps| ensures StepOk(sup, g, base, files, txns, rss + [rs], outss + [outs], steps + [s], j) {
      if j < |steps| {
        StepKept(sup, g, base, files, txns, rss, outss, steps, rs, outs, s, j);
      }
    }
  }

  lemma WritesOfNext(steps: seq<Step>, s: Step)
    ensures WritesOf(steps + [s], |steps| + 1) == WritesOf(steps, |steps|) + s.ws
  {
    WritesOfSame(steps, s, |steps|);
  }

  lemma ReplayAllNext(files: seq<seq<byte>>, txns: seq<seq<FileOp>>, rss: seq<seq<int>>, rs: seq<int>)
    requires |rss| < |txns|
    ensures ReplayAll(files, txns, rss + [rs], |rss| + 1) == Replay(ReplayAll(files, txns, rss, |rss|), txns[|rss|], rs)
  {
    ReplayAllSame(files, txns, rss, rs, |rss|);
  }

  lemma StepNew(sup: Super, g: Geometry, base: Disk, files: seq<seq<byte>>, txns: seq<seq<FileOp>>,
                rss: seq<seq<int>>, outss: seq<seq<seq<byte>>>, steps: seq<Step>, rs: seq<int>, outs: seq<seq<byte>>,
                  s: Step)
    requires Layout(sup, g) && |steps| == |rss| == |outss| < |txns| && Atomic(sup, g, s)
    requires Answered(sup, s.before, txns[|rss|], rs, outs, s.states)
    requires (forall w :: w in WritesOf(steps, |steps|) ==> w.bno < |base|)
    requires s.base == After(base, WritesOf(steps, |steps|)) && s.before == ReplayAll(files, txns, rss, |rss|)
    requires s.after == Replay(s.before, txns[|rss|], rs)
    ensures StepOk(sup, g, base, files, txns, rss + [rs], outss + [outs], steps + [s], |steps|)
  {
    hide Layout, Atomic, After, Replay, WritesOf, ReplayAll, Answered;
    WritesOfSame(steps, s, |steps|);
    ReplayAllSame(files, txns, rss, rs, |rss|);
    ReplayAllNext(files, txns, rss, rs);
  }

  /** Any number of transactions one after another: all block writes together are those of the steps, in order; and
      wherever they are cut short, a kernel finds the files after a whole number of transactions.  False is a
      panic in transaction number |rss|. */
  method RunAll(files: FileSystem, log: Logger, txns: seq<seq<FileOp>>)
    returns (ok: bool, rss: seq<seq<int>>, outss: seq<seq<seq<byte>>>, ghost steps: seq<Step>)
    requires Holding(files, log)
    requires forall t, k :: 0 <= t < |txns| && 0 <= k < |txns[t]| ==> OpOk(files.sup, txns[t][k])
    modifies files, log, log.cache, log.cache.buf
    ensures |rss| == |outss| == |steps| <= |txns| && (ok <==> |rss| == |txns|)
    ensures !ok ==> |files.logged| > log.g.size || |files.logged| >= log.cache.nbuf
    ensures ok ==> Holding(files, log) && files.Files() == ReplayAll(old(files.Files()), txns, rss, |rss|)
    ensures ok ==> Emitted(old(log.cache.disk), old(log.cache.trace), log.cache.disk, log.cache.trace, log.dev,
              WritesOf(steps, |steps|))
    ensures forall j: nat :: j < |steps| ==>
              StepOk(files.sup, log.g, old(log.cache.disk[log.dev]), old(files.Files()), txns, rss, outss, steps, j)
  {
    hide Layout, Atomic, After, Replay, ReplayAll, WritesOf, StepOk, Holding, Emitted, Answered;
    ok, rss, outss, steps := true, [], [], [];
    HoldingParts(files, log);
    ghost var sup, g, base, files0 := files.sup, log.g, log.cache.disk[log.dev], files.Files();
    NothingRun(log.cache.disk, log.cache.trace, log.dev, files0, txns);
    while |rss| < |txns|
      invariant ok && |rss| == |outss| == |steps| <= |txns| && Holding(files, log) && Shape(sup, files.Snap())
      invariant files.Files() == ReplayAll(files0, txns, rss, |rss|)
      invariant Emitted(old(log.cache.disk), old(log.cache.trace), log.cache.disk, log.cache.trace, log.dev,
                  WritesOf(steps, |steps|))
      invariant forall j: nat :: j < |steps| ==> StepOk(sup, g, base, files0, txns, rss, outss, steps, j)
      decreases |txns| - |rss|
    {
      ghost var disk1, t1 := log.cache.disk, log.cache.trace;
      HoldingParts(files, log);
      EmittedParts(old(log.cache.disk), old(log.cache.trace), disk1, t1, log.dev, WritesOf(steps, |steps|));
      ghost var before := files.Files();
      var fine, rs, outs, ws, states := Transact(files, log, txns[|rss|]);
      if !fine {
        return false, rss, outss, steps;
      }
      HoldingParts(files, log);
      ghost var step := Step(disk1[log.dev], ws, |files.logged|, before, files.Files(), states);
      StepsMore(sup, g, base, files0, txns, rss, outss, steps, rs, outs, step);
      EmittedJoin(old(log.cache.disk), old(log.cache.trace), disk1, t1, log.cache.disk, log.cache.trace, log.dev,
        WritesOf(steps, |steps|), ws);
      rss, outss, steps := rss + [rs], outss + [outs], steps + [step];
    }
  }

  lemma HoldingParts(files: FileSystem, log: Logger)
    requires Holding(files, log)
    ensures Shape(files.sup, files.Snap()) && Layout(files.sup, log.g) && log.dev in log.cache.disk
  {
  }

  lemma NothingRun(disk: map<nat, Disk>, trace: seq<(nat, Write)>, dev: nat, files: seq<seq<byte>>,
                   txns: seq<seq<FileOp>>)
    requires dev in disk
    ensures Emitted(disk, trace, disk, trace, dev, WritesOf([], 0)) && ReplayAll(files, txns, [], 0) == files
  {
  }

  lemma EmittedParts(disk0: map<nat, Disk>, t0: seq<(nat, Write)>, disk1: map<nat, Disk>, t1: seq<(nat, Write)>,
                     dev: nat, ws: seq<Write>)
    requires Emitted(disk0, t0, disk1, t1, dev, ws)
    ensures dev in disk0 && (forall w :: w in ws ==> w.bno < |disk0[dev]|)
    ensures dev in disk1 && disk1[dev] == After(disk0[dev], ws)
  {
  }
}
