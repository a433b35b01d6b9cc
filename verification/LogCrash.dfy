/**
  Crash atomicity of the write-ahead log.

  One block write is atomic; a crash may fall between any two block writes of commit and, after
  that, any number of times inside recovery.  A block is its sequence of 32-bit words; the log
  header block holds the count in word 0 and the home block numbers in the words after it.
*/
module LogCrash {

  type Block = seq<nat>
  type Disk = seq<Block>

  /** `start`: block of the log header; `size`: LOGBLOCKS, the data blocks after it; `nblocks`: disk size;
      `words`: words in a block. */
  datatype Geometry = Geometry(start: nat, size: nat, nblocks: nat, words: nat)
  {
    /** initlog refuses a header that does not fit in a block. */
    predicate Valid() { start + 1 + size <= nblocks && size + 1 < words }
    /** A block outside the log area. */
    predicate Home(b: nat) { b < nblocks && !(start <= b <= start + size) }
  }

  datatype Write = Write(bno: nat, data: Block)

  predicate DiskOk(g: Geometry, d: Disk) {
    g.Valid() && |d| == g.nblocks && forall b :: 0 <= b < |d| ==> |d[b]| == g.words
  }

  /** The disk after a sequence of block writes. */
  function After(d: Disk, ws: seq<Write>): (r: Disk)
    requires forall w :: w in ws ==> w.bno < |d|
    ensures |r| == |d|
    decreases |ws|
  {
    if ws == [] then d
    else
      var n := |ws| - 1;
      After(d, ws[..n])[ws[n].bno := ws[n].data]
  }

  // ---------------------------------------------------------------- what the code writes

  /** write_head: overwrites the count and the first entries, leaving stale words behind. */
  function Header(prev: Block, lh: seq<nat>): (r: Block)
    requires |lh| + 1 <= |prev|
    ensures |r| == |prev|
  {
    [|lh|] + lh + prev[1 + |lh|..]
  }

  /** One block write after another: `data[t]` to block `to[t]`. */
  function BlockWrites(to: seq<nat>, data: seq<Block>): (r: seq<Write>)
    requires |to| == |data|
    ensures |r| == |to|
  {
    seq(|to|, t requires 0 <= t < |to| => Write(to[t], data[t]))
  }

  /** Block number of the log's data block `t`. */
  function LogSlot(g: Geometry, t: nat): nat { g.start + 1 + t }

  /** The first `n` data blocks of the log. */
  function LogSlots(g: Geometry, n: nat): (r: seq<nat>)
    ensures |r| == n
  {
    seq(n, t requires 0 <= t < n => LogSlot(g, t))
  }

  /** commit: log blocks, header, home blocks, header again with a zero count. */
  function CommitWrites(g: Geometry, hdr: Block, lh: seq<nat>, data: seq<Block>): seq<Write>
    requires |lh| == |data| && |lh| + 1 <= |hdr|
  {
    if lh == [] then []
    else BlockWrites(LogSlots(g, |data|), data) + [Write(g.start, Header(hdr, lh))]
         + BlockWrites(lh, data) + [Write(g.start, Header(Header(hdr, lh), []))]
  }

  /** The transaction the on-disk header announces. */
  predicate HeaderOk(g: Geometry, d: Disk) {
    DiskOk(g, d) && d[g.start][0] <= g.size && forall b :: b in d[g.start][1..1 + d[g.start][0]] ==> g.Home(b)
  }

  function Logged(g: Geometry, d: Disk): (r: seq<nat>)
    requires HeaderOk(g, d)
    ensures |r| <= g.size
  {
    d[g.start][1..1 + d[g.start][0]]
  }

  function LogData(g: Geometry, d: Disk, n: nat): (r: seq<Block>)
    requires DiskOk(g, d) && n <= g.size
    ensures |r| == n
  {
    d[g.start + 1..g.start + 1 + n]
  }

  /** recover_from_log: copy the announced blocks home, then clear the header. */
  function RecoverWrites(g: Geometry, d: Disk): seq<Write>
    requires HeaderOk(g, d)
  {
    var lh := Logged(g, d);
    BlockWrites(lh, LogData(g, d, |lh|)) + [Write(g.start, Header(d[g.start], []))]
  }

  // ---------------------------------------------------------------- effect of prefixes

  lemma AfterAppend(d: Disk, ws: seq<Write>, k: nat)
    requires k < |ws| && forall w :: w in ws ==> w.bno < |d|
    ensures After(d, ws[..k + 1]) == After(d, ws[..k])[ws[k].bno := ws[k].data]
  {
    assert ws[..k + 1][..k] == ws[..k];
  }

  lemma {:induction false} AfterConcat(d: Disk, a: seq<Write>, b: seq<Write>)
    requires forall w :: w in a + b ==> w.bno < |d|
    ensures (forall w :: w in a ==> w.bno < |d|) && (forall w :: w in b ==> w.bno < |d|)
    ensures After(After(d, a), b) == After(d, a + b)
    decreases |b|
  {
    forall w | w in a || w in b ensures w.bno < |d| { assert w in a + b; }
    if b == [] {
      assert a + b == a;
    } else {
      var n := |b| - 1;
      assert (a + b)[..|a + b| - 1] == a + b[..n];
      AfterConcat(d, a, b[..n]);
    }
  }

  predicate Targets(d: Disk, to: seq<nat>, data: seq<Block>) {
    |to| == |data| && forall t :: 0 <= t < |to| ==> to[t] < |d|
  }

  /** The disk after the first `k` of the writes `data[t]` to `to[t]`. */
  function Prefix(d: Disk, to: seq<nat>, data: seq<Block>, k: nat): (r: Disk)
    requires Targets(d, to, data) && k <= |to|
    ensures |r| == |d|
  {
    After(d, BlockWrites(to, data)[..k])
  }

  lemma PrefixIs(d: Disk, to: seq<nat>, data: seq<Block>, k: nat)
    requires Targets(d, to, data) && k <= |to|
    ensures forall w :: w in BlockWrites(to, data)[..k] ==> w.bno < |d|
    ensures After(d, BlockWrites(to, data)[..k]) == Prefix(d, to, data, k)
  {
    hide After;
  }

  /** A block that is no target keeps its contents. */
  lemma {:induction false} PrefixMisses(d: Disk, to: seq<nat>, data: seq<Block>, k: nat, b: nat)
    requires Targets(d, to, data) && k <= |to| && b < |d| && forall t :: 0 <= t < k ==> to[t] != b
    ensures Prefix(d, to, data, k)[b] == d[b]
    decreases k
  {
    if k > 0 {
      PrefixMisses(d, to, data, k - 1, b);
      AfterAppend(d, BlockWrites(to, data), k - 1);
    }
  }

  /** A target of distinct writes ends up with its own data. */
  lemma {:induction false} PrefixHits(d: Disk, to: seq<nat>, data: seq<Block>, k: nat, t: nat)
    requires Targets(d, to, data) && t < k <= |to|
    requires forall u :: t < u < |to| ==> to[u] != to[t]
    ensures Prefix(d, to, data, k)[to[t]] == data[t]
    decreases k
  {
    AfterAppend(d, BlockWrites(to, data), k - 1);
    if t < k - 1 {
      PrefixHits(d, to, data, k - 1, t);
    }
  }

  // ---------------------------------------------------------------- the three phases of a transaction

  /** What log_write recorded: distinct home blocks with their new contents, over a disk with a clear log. */
  predicate TxnOk(g: Geometry, base: Disk, lh: seq<nat>, data: seq<Block>) {
    && DiskOk(g, base) && base[g.start][0] == 0
    && |lh| == |data| <= g.size
    && (forall t :: 0 <= t < |lh| ==> g.Home(lh[t]) && |data[t]| == g.words)
    && (forall s, t :: 0 <= s < t < |lh| ==> lh[s] != lh[t])
  }

  /** The home blocks once the whole transaction took effect. */
  function NewDisk(g: Geometry, base: Disk, lh: seq<nat>, data: seq<Block>): (r: Disk)
    requires TxnOk(g, base, lh, data)
    ensures |r| == |base|
  {
    InRange(g, base, lh, data);
    After(base, BlockWrites(lh, data))
  }

  lemma InRange(g: Geometry, base: Disk, lh: seq<nat>, data: seq<Block>)
    requires TxnOk(g, base, lh, data)
    ensures forall w :: w in BlockWrites(lh, data) ==> w.bno < |base|
  {
  }

  predicate SameHome(g: Geometry, d: Disk, e: Disk) {
    |d| == |e| == g.nblocks && forall b :: 0 <= b < |d| && g.Home(b) ==> d[b] == e[b]
  }

  /** The log is clear and the home blocks are those of `e`. */
  predicate Settled(g: Geometry, d: Disk, e: Disk) {
    DiskOk(g, d) && d[g.start][0] == 0 && SameHome(g, d, e)
  }

  /** The header is on disk; home blocks of the transaction may hold anything in between. */
  predicate Committed(g: Geometry, base: Disk, lh: seq<nat>, data: seq<Block>, d: Disk) {
    && DiskOk(g, d) && |lh| == |data| <= g.size && |base| == |d|
    && d[g.start][0] == |lh| && d[g.start][1..1 + |lh|] == lh
    && LogData(g, d, |lh|) == data
    && forall b :: 0 <= b < |d| && g.Home(b) && b !in lh ==> d[b] == base[b]
  }

  lemma LogPrefix(g: Geometry, base: Disk, lh: seq<nat>, data: seq<Block>, k: nat)
    requires TxnOk(g, base, lh, data) && k <= |lh|
    ensures var ws := BlockWrites(LogSlots(g, |lh|), data);
            && (forall w :: w in ws[..k] ==> w.bno < |base|)
            && var d := After(base, ws[..k]);
               Settled(g, d, base) && d[g.start] == base[g.start] && LogData(g, d, k) == data[..k]
  {
    hide After, BlockWrites, Settled, LogData, Prefix;
    var slots := LogSlots(g, |lh|);
    assert Targets(base, slots, data) by { SlotTargets(g, base, lh, data); }
    PrefixIs(base, slots, data, k);
    var d := Prefix(base, slots, data, k);
    forall t | 0 <= t < k ensures d[g.start + 1 + t] == data[t] {
      PrefixHits(base, slots, data, k, t);
    }
    forall b | 0 <= b < |d| && !(g.start < b <= g.start + k) ensures d[b] == base[b] {
      PrefixMisses(base, slots, data, k, b);
    }
    LogAreaOnly(g, base, lh, data, d, k);
  }

  lemma SlotTargets(g: Geometry, base: Disk, lh: seq<nat>, data: seq<Block>)
    requires TxnOk(g, base, lh, data)
    ensures Targets(base, LogSlots(g, |lh|), data)
  {
  }

  lemma HomeTargets(g: Geometry, base: Disk, lh: seq<nat>, data: seq<Block>, d: Disk)
    requires TxnOk(g, base, lh, data) && |d| == g.nblocks
    ensures Targets(d, lh, data) && |lh| == |data| && forall s, t :: 0 <= s < t < |lh| ==> lh[s] != lh[t]
  {
  }

  lemma NewDiskIs(g: Geometry, base: Disk, lh: seq<nat>, data: seq<Block>)
    requires TxnOk(g, base, lh, data) && Targets(base, lh, data)
    ensures NewDisk(g, base, lh, data) == Prefix(base, lh, data, |lh|)
  {
    hide After;
    assert BlockWrites(lh, data)[..|lh|] == BlockWrites(lh, data);
  }

  lemma CommittedSizes(g: Geometry, base: Disk, lh: seq<nat>, data: seq<Block>, d: Disk)
    requires TxnOk(g, base, lh, data) && Committed(g, base, lh, data, d)
    ensures |d| == |base| == g.nblocks
  {
  }

  lemma LogAreaOnly(g: Geometry, base: Disk, lh: seq<nat>, data: seq<Block>, d: Disk, k: nat)
    requires TxnOk(g, base, lh, data) && k <= |lh| && |d| == |base|
    requires forall t :: 0 <= t < k ==> d[g.start + 1 + t] == data[t]
    requires forall b :: 0 <= b < |d| && !(g.start < b <= g.start + k) ==> d[b] == base[b]
    ensures Settled(g, d, base) && d[g.start] == base[g.start] && LogData(g, d, k) == data[..k]
  {
    forall b | 0 <= b < |d| ensures |d[b]| == g.words {
      if g.start < b <= g.start + k {
        assert d[g.start + 1 + (b - g.start - 1)] == data[b - g.start - 1];
      }
    }
  }

  lemma HeaderCommits(g: Geometry, base: Disk, lh: seq<nat>, data: seq<Block>, d: Disk)
    requires TxnOk(g, base, lh, data) && Settled(g, d, base) && LogData(g, d, |lh|) == data
    ensures Committed(g, base, lh, data, d[g.start := Header(d[g.start], lh)])
  {
    var e := d[g.start := Header(d[g.start], lh)];
    assert LogData(g, e, |lh|) == LogData(g, d, |lh|);
  }

  /** Copying home, in commit or in recovery, keeps the transaction recoverable at every block. */
  lemma InstallPrefix(g: Geometry, base: Disk, lh: seq<nat>, data: seq<Block>, d: Disk, k: nat)
    requires TxnOk(g, base, lh, data) && Committed(g, base, lh, data, d) && k <= |lh|
    ensures var ws := BlockWrites(lh, data);
            && (forall w :: w in ws[..k] ==> w.bno < |d|)
            && var e := After(d, ws[..k]);
               && Committed(g, base, lh, data, e) && e[g.start] == d[g.start]
               && (k == |lh| ==> SameHome(g, e, NewDisk(g, base, lh, data)))
  {
    hide After, BlockWrites, Committed, SameHome, NewDisk, Prefix, TxnOk, Targets;
    CommittedSizes(g, base, lh, data, d);
    HomeTargets(g, base, lh, data, d);
    PrefixIs(d, lh, data, k);
    var e := Prefix(d, lh, data, k);
    InstallPointwise(g, lh, data, d, k);
    InstallStays(g, base, lh, data, d, e, k);
    if k == |lh| {
      HomeTargets(g, base, lh, data, base);
      NewDiskIs(g, base, lh, data);
      InstallPointwise(g, lh, data, base, k);
      InstallCompletes(g, base, lh, data, e, Prefix(base, lh, data, k));
    }
  }

  lemma InstallPointwise(g: Geometry, lh: seq<nat>, data: seq<Block>, d: Disk, k: nat)
    requires Targets(d, lh, data) && k <= |lh| && forall s, t :: 0 <= s < t < |lh| ==> lh[s] != lh[t]
    ensures var e := Prefix(d, lh, data, k);
            && (forall t :: 0 <= t < k ==> e[lh[t]] == data[t])
            && (forall b :: 0 <= b < |d| && b !in lh[..k] ==> e[b] == d[b])
  {
    hide Prefix;
    var e := Prefix(d, lh, data, k);
    forall t | 0 <= t < k ensures e[lh[t]] == data[t] {
      PrefixHits(d, lh, data, k, t);
    }
    forall b | 0 <= b < |d| && b !in lh[..k] ensures e[b] == d[b] {
      forall t | 0 <= t < k ensures lh[t] != b { assert lh[t] in lh[..k]; }
      PrefixMisses(d, lh, data, k, b);
    }
  }

  lemma InstallStays(g: Geometry, base: Disk, lh: seq<nat>, data: seq<Block>, d: Disk, e: Disk, k: nat)
    requires TxnOk(g, base, lh, data) && Committed(g, base, lh, data, d) && k <= |lh| && |e| == |d|
    requires forall t :: 0 <= t < k ==> e[lh[t]] == data[t]
    requires forall b :: 0 <= b < |d| && b !in lh[..k] ==> e[b] == d[b]
    ensures Committed(g, base, lh, data, e) && e[g.start] == d[g.start]
  {
    forall b | 0 <= b < |e| && (!g.Home(b) || b !in lh) ensures e[b] == d[b] {
      assert b !in lh[..k];
    }
    assert LogData(g, e, |lh|) == LogData(g, d, |lh|);
    forall b | 0 <= b < |e| ensures |e[b]| == g.words {
      if b in lh[..k] {
        var t :| 0 <= t < k && lh[t] == b;
      }
    }
  }

  lemma InstallCompletes(g: Geometry, base: Disk, lh: seq<nat>, data: seq<Block>, e: Disk, n: Disk)
    requires TxnOk(g, base, lh, data) && Committed(g, base, lh, data, e) && |n| == |e|
    requires forall t :: 0 <= t < |lh| ==> e[lh[t]] == data[t] == n[lh[t]]
    requires forall b :: 0 <= b < |n| && b !in lh[..|lh|] ==> n[b] == base[b]
    ensures SameHome(g, e, n)
  {
    assert lh[..|lh|] == lh;
    forall b | 0 <= b < |e| && g.Home(b) ensures e[b] == n[b] {
      if b in lh {
        var t :| 0 <= t < |lh| && lh[t] == b;
      }
    }
  }

  lemma HeaderClears(g: Geometry, d: Disk, e: Disk)
    requires DiskOk(g, d) && SameHome(g, d, e)
    ensures Settled(g, d[g.start := Header(d[g.start], [])], e)
  {
  }

  // ---------------------------------------------------------------- commit interrupted anywhere

  lemma CommitInRange(g: Geometry, base: Disk, lh: seq<nat>, data: seq<Block>)
    requires TxnOk(g, base, lh, data)
    ensures forall w :: w in CommitWrites(g, base[g.start], lh, data) ==> w.bno < |base|
  {
  }

  /** The disk after the first `k` block writes of commit: the old home blocks until the header write,
      number |lh|, has happened; recoverable after it; settled on the new ones at the end. */
  lemma CommitPrefix(g: Geometry, base: Disk, lh: seq<nat>, data: seq<Block>, k: nat)
    requires TxnOk(g, base, lh, data) && lh != []
    requires k <= |CommitWrites(g, base[g.start], lh, data)|
    ensures var ws := CommitWrites(g, base[g.start], lh, data);
            && (forall w :: w in ws[..k] ==> w.bno < |base|)
            && var d := After(base, ws[..k]);
               if k <= |lh| then Settled(g, d, base)
               else if k < |ws| then Committed(g, base, lh, data, d)
               else Settled(g, d, NewDisk(g, base, lh, data))
  {
    CommitInRange(g, base, lh, data);
    if k <= |lh| {
      CommitPrefixLog(g, base, lh, data, k);
    } else {
      CommitPrefixHome(g, base, lh, data, if k == |CommitWrites(g, base[g.start], lh, data)| then k - 1 else k);
      if k == |CommitWrites(g, base[g.start], lh, data)| {
        CommitComplete(g, base, lh, data);
      }
    }
  }

  lemma CommitShape(g: Geometry, base: Disk, lh: seq<nat>, data: seq<Block>)
    requires TxnOk(g, base, lh, data) && lh != []
    ensures var ws, n := CommitWrites(g, base[g.start], lh, data), |lh|;
            && |ws| == 2 * n + 2
            && ws[..n] == BlockWrites(LogSlots(g, n), data)
            && ws[..n + 1] == ws[..n] + [Write(g.start, Header(base[g.start], lh))]
            && (forall j :: 0 <= j <= n ==> ws[..n + 1 + j] == ws[..n + 1] + BlockWrites(lh, data)[..j])
            && ws == ws[..2 * n + 1] + [Write(g.start, Header(Header(base[g.start], lh), []))]
  {
  }

  lemma CommitPrefixLog(g: Geometry, base: Disk, lh: seq<nat>, data: seq<Block>, k: nat)
    requires TxnOk(g, base, lh, data) && lh != [] && k <= |lh|
    ensures |lh| <= |CommitWrites(g, base[g.start], lh, data)|
    ensures var ws := CommitWrites(g, base[g.start], lh, data)[..k];
            && (forall w :: w in ws ==> w.bno < |base|)
            && var d := After(base, ws);
               Settled(g, d, base) && d[g.start] == base[g.start] && LogData(g, d, k) == data[..k]
  {
    CommitShape(g, base, lh, data);
    var ws := CommitWrites(g, base[g.start], lh, data);
    assert ws[..k] == ws[..|lh|][..k];
    LogPrefix(g, base, lh, data, k);
  }

  /** The header write commits. */
  lemma CommitHeader(g: Geometry, base: Disk, lh: seq<nat>, data: seq<Block>)
    requires TxnOk(g, base, lh, data) && lh != []
    ensures |lh| + 1 <= |CommitWrites(g, base[g.start], lh, data)|
    ensures var ws := CommitWrites(g, base[g.start], lh, data)[..|lh| + 1];
            && (forall w :: w in ws ==> w.bno < |base|)
            && Committed(g, base, lh, data, After(base, ws)) && After(base, ws)[g.start] == Header(base[g.start], lh)
  {
    CommitInRange(g, base, lh, data);
    CommitShape(g, base, lh, data);
    var ws, n := CommitWrites(g, base[g.start], lh, data), |lh|;
    assert data[..n] == data;
    hide CommitWrites, After, BlockWrites, Settled, Committed, LogData, Header, LogSlots, TxnOk;
    CommitPrefixLog(g, base, lh, data, n);
    HeaderCommits(g, base, lh, data, After(base, ws[..n]));
    AfterOne(base, ws[..n], Write(g.start, Header(base[g.start], lh)));
  }

  lemma CommitPrefixHome(g: Geometry, base: Disk, lh: seq<nat>, data: seq<Block>, k: nat)
    requires TxnOk(g, base, lh, data) && lh != [] && |lh| < k <= 2 * |lh| + 1
    ensures 2 * |lh| + 1 <= |CommitWrites(g, base[g.start], lh, data)|
    ensures var ws := CommitWrites(g, base[g.start], lh, data)[..k];
            && (forall w :: w in ws ==> w.bno < |base|)
            && var d := After(base, ws);
               && Committed(g, base, lh, data, d) && d[g.start] == Header(base[g.start], lh)
               && (k == 2 * |lh| + 1 ==> SameHome(g, d, NewDisk(g, base, lh, data)))
  {
    var j, ws := k - |lh| - 1, CommitWrites(g, base[g.start], lh, data);
    hide CommitWrites, After, BlockWrites, Settled, Committed, LogData, SameHome, Header, NewDisk, LogSlots, TxnOk;
    CommitHeader(g, base, lh, data);
    CommitSplit(g, base, lh, data, j);
    var first := ws[..|lh| + 1];
    InstallPrefix(g, base, lh, data, After(base, first), j);
    AfterConcat(base, first, BlockWrites(lh, data)[..j]);
  }

  lemma CommitSplit(g: Geometry, base: Disk, lh: seq<nat>, data: seq<Block>, j: nat)
    requires TxnOk(g, base, lh, data) && lh != [] && j <= |lh|
    ensures var ws, k := CommitWrites(g, base[g.start], lh, data), |lh| + 1 + j;
            && |ws| == 2 * |lh| + 2 && ws[..k] == ws[..|lh| + 1] + BlockWrites(lh, data)[..j]
            && forall w :: w in ws[..k] ==> w.bno < |base|
  {
    CommitInRange(g, base, lh, data);
    CommitShape(g, base, lh, data);
  }

  lemma CommitComplete(g: Geometry, base: Disk, lh: seq<nat>, data: seq<Block>)
    requires TxnOk(g, base, lh, data) && lh != []
    ensures var ws := CommitWrites(g, base[g.start], lh, data);
            && (forall w :: w in ws ==> w.bno < |base|)
            && ws[..|ws|] == ws
            && Settled(g, After(base, ws), NewDisk(g, base, lh, data))
  {
    CommitInRange(g, base, lh, data);
    CommitShape(g, base, lh, data);
    var ws := CommitWrites(g, base[g.start], lh, data);
    assert ws[..|ws|] == ws;
    CommitPrefixHome(g, base, lh, data, 2 * |lh| + 1);
    hide CommitWrites, After, BlockWrites, Settled, SameHome, Header, LogData;
    var d := After(base, ws[..2 * |lh| + 1]);
    AfterOne(base, ws[..2 * |lh| + 1], Write(g.start, Header(Header(base[g.start], lh), [])));
    HeaderClears(g, d, NewDisk(g, base, lh, data));
  }

  lemma AfterOne(d: Disk, ws: seq<Write>, w: Write)
    requires (forall v :: v in ws ==> v.bno < |d|) && w.bno < |d|
    ensures After(d, ws + [w]) == After(d, ws)[w.bno := w.data]
  {
    assert (ws + [w])[..|ws|] == ws;
  }

  // ---------------------------------------------------------------- recovery interrupted anywhere

  /** Either the transaction never happened and the disk is settled on `base`, or the header is out, or
      the disk is settled on the new contents. */
  predicate Phase(g: Geometry, base: Disk, lh: seq<nat>, data: seq<Block>, d: Disk, isNew: bool)
    requires TxnOk(g, base, lh, data)
  {
    if isNew then Committed(g, base, lh, data, d) || Settled(g, d, NewDisk(g, base, lh, data))
    else Settled(g, d, base)
  }

  lemma CommitPhase(g: Geometry, base: Disk, lh: seq<nat>, data: seq<Block>, k: nat)
    requires TxnOk(g, base, lh, data) && k <= |CommitWrites(g, base[g.start], lh, data)|
    ensures forall w :: w in CommitWrites(g, base[g.start], lh, data)[..k] ==> w.bno < |base|
    ensures Phase(g, base, lh, data, After(base, CommitWrites(g, base[g.start], lh, data)[..k]), k > |lh|)
  {
    if lh == [] {
      assert CommitWrites(g, base[g.start], lh, data)[..k] == [];
    } else {
      CommitPrefix(g, base, lh, data, k);
    }
  }

  lemma PhaseHeader(g: Geometry, base: Disk, lh: seq<nat>, data: seq<Block>, d: Disk, isNew: bool)
    requires TxnOk(g, base, lh, data) && Phase(g, base, lh, data, d, isNew)
    ensures HeaderOk(g, d)
    ensures forall w :: w in RecoverWrites(g, d) ==> w.bno < |d|
  {
  }

  lemma RecoverSettled(g: Geometry, d: Disk, home: Disk, c: nat)
    requires Settled(g, d, home) && c <= 1
    ensures HeaderOk(g, d) && |RecoverWrites(g, d)| == 1
    ensures (forall w :: w in RecoverWrites(g, d)[..c] ==> w.bno < |d|)
    ensures Settled(g, After(d, RecoverWrites(g, d)[..c]), home)
  {
    var ws := RecoverWrites(g, d);
    var clear := Write(g.start, Header(d[g.start], []));
    assert ws == [clear];
    HeaderClears(g, d, home);
    hide RecoverWrites, Settled, Header, HeaderOk;
    if c == 0 {
      assert ws[..c] == [];
    } else {
      assert ws[..c] == [] + [clear];
      AfterOne(d, [], clear);
    }
  }

  lemma RecoverCommitted(g: Geometry, base: Disk, lh: seq<nat>, data: seq<Block>, d: Disk, c: nat)
    requires TxnOk(g, base, lh, data) && Committed(g, base, lh, data, d) && c <= |lh| + 1
    ensures HeaderOk(g, d) && |RecoverWrites(g, d)| == |lh| + 1
    ensures (forall w :: w in RecoverWrites(g, d)[..c] ==> w.bno < |d|)
    ensures var e := After(d, RecoverWrites(g, d)[..c]);
            if c <= |lh| then Committed(g, base, lh, data, e) else Settled(g, e, NewDisk(g, base, lh, data))
  {
    var ws, home := RecoverWrites(g, d), BlockWrites(lh, data);
    var clear := Write(g.start, Header(d[g.start], []));
    assert ws == home + [clear];
    var j := if c > |lh| then |lh| else c;
    InstallPrefix(g, base, lh, data, d, j);
    assert ws[..j] == home[..j];
    if c > |lh| {
      hide After, BlockWrites, RecoverWrites, Committed, Settled, SameHome, Header;
      assert home[..j] == home && ws[..c] == ws;
      AfterOne(d, home, clear);
      HeaderClears(g, After(d, home), NewDisk(g, base, lh, data));
    }
  }

  /** A crash after `c` block writes of recovery keeps the phase; a recovery that completes settles it. */
  lemma RecoverPrefix(g: Geometry, base: Disk, lh: seq<nat>, data: seq<Block>, d: Disk, isNew: bool, c: nat)
    requires TxnOk(g, base, lh, data) && Phase(g, base, lh, data, d, isNew)
    requires HeaderOk(g, d) && c <= |RecoverWrites(g, d)|
    ensures (forall w :: w in RecoverWrites(g, d)[..c] ==> w.bno < |d|)
    ensures var e := After(d, RecoverWrites(g, d)[..c]);
            && Phase(g, base, lh, data, e, isNew)
            && (c == |RecoverWrites(g, d)| ==> Settled(g, e, if isNew then NewDisk(g, base, lh, data) else base))
  {
    hide After, RecoverWrites, Committed, Settled, HeaderOk, NewDisk;
    if !isNew {
      RecoverSettled(g, d, base, 0);
      RecoverSettled(g, d, base, c);
    } else if Committed(g, base, lh, data, d) {
      RecoverCommitted(g, base, lh, data, d, 0);
      RecoverCommitted(g, base, lh, data, d, c);
    } else {
      RecoverSettled(g, d, NewDisk(g, base, lh, data), 0);
      RecoverSettled(g, d, NewDisk(g, base, lh, data), c);
    }
  }

  /** `d` becomes `e` through recoveries that crash after `crashes[0]`, `crashes[1]`, ... block writes. */
  ghost predicate CrashedRecoveries(g: Geometry, d: Disk, crashes: seq<nat>, e: Disk)
    decreases |crashes|
  {
    if crashes == [] then d == e
    else
      && HeaderOk(g, d) && crashes[0] <= |RecoverWrites(g, d)|
      && (forall w :: w in RecoverWrites(g, d)[..crashes[0]] ==> w.bno < |d|)
      && CrashedRecoveries(g, After(d, RecoverWrites(g, d)[..crashes[0]]), crashes[1..], e)
  }

  lemma {:induction false} CrashesKeepPhase(g: Geometry, base: Disk, lh: seq<nat>, data: seq<Block>,
                                            d: Disk, crashes: seq<nat>, e: Disk, isNew: bool)
    requires TxnOk(g, base, lh, data) && Phase(g, base, lh, data, d, isNew) && CrashedRecoveries(g, d, crashes, e)
    ensures Phase(g, base, lh, data, e, isNew)
    decreases |crashes|
  {
    if crashes != [] {
      RecoverPrefix(g, base, lh, data, d, isNew, crashes[0]);
      CrashesKeepPhase(g, base, lh, data, After(d, RecoverWrites(g, d)[..crashes[0]]), crashes[1..], e, isNew);
    }
  }

  function Recover(g: Geometry, d: Disk): (r: Disk)
    requires HeaderOk(g, d)
    ensures |r| == |d|
  {
    RecoverInRange(g, d);
    After(d, RecoverWrites(g, d))
  }

  lemma RecoverInRange(g: Geometry, d: Disk)
    requires HeaderOk(g, d)
    ensures forall w :: w in RecoverWrites(g, d) ==> w.bno < |d|
  {
    var lh := Logged(g, d);
    forall t | 0 <= t < |lh| ensures lh[t] < |d| {
      assert lh[t] in lh && g.Home(lh[t]);
    }
  }

  /** A recovery that completes leaves a clear log. */
  lemma RecoverClears(g: Geometry, d: Disk)
    requires HeaderOk(g, d)
    ensures Recover(g, d)[g.start] == Header(d[g.start], [])
  {
    RecoverInRange(g, d);
    var lh := Logged(g, d);
    AfterOne(d, BlockWrites(lh, LogData(g, d, |lh|)), Write(g.start, Header(d[g.start], [])));
  }

  /** The whole of it: crash anywhere in commit, then anywhere in any number of recoveries; the recovery
      that completes leaves a clear log and home blocks that are all old or all new, and all new exactly
      when the first header write had reached the disk. */
  lemma CrashAtomicity(g: Geometry, base: Disk, lh: seq<nat>, data: seq<Block>, k: nat, d: Disk,
                       crashes: seq<nat>, e: Disk)
    requires TxnOk(g, base, lh, data) && k <= |CommitWrites(g, base[g.start], lh, data)|
    requires forall w :: w in CommitWrites(g, base[g.start], lh, data)[..k] ==> w.bno < |base|
    requires d == After(base, CommitWrites(g, base[g.start], lh, data)[..k])
    requires CrashedRecoveries(g, d, crashes, e)
    ensures HeaderOk(g, e)
    ensures Settled(g, Recover(g, e), if k > |lh| then NewDisk(g, base, lh, data) else base)
  {
    hide After, RecoverWrites, Phase, NewDisk, CommitWrites, Settled;
    var isNew := k > |lh|;
    CommitPhase(g, base, lh, data, k);
    CrashesKeepPhase(g, base, lh, data, d, crashes, e, isNew);
    RecoverOnce(g, base, lh, data, e, isNew);
  }

  /** Recovering a recovered disk changes no home block. */
  lemma RecoverIdempotent(g: Geometry, base: Disk, lh: seq<nat>, data: seq<Block>, d: Disk, isNew: bool)
    requires TxnOk(g, base, lh, data) && Phase(g, base, lh, data, d, isNew)
    ensures HeaderOk(g, d) && HeaderOk(g, Recover(g, d))
    ensures SameHome(g, Recover(g, Recover(g, d)), Recover(g, d))
  {
    hide After, RecoverWrites, Phase, NewDisk;
    RecoverOnce(g, base, lh, data, d, isNew);
    RecoverOnce(g, base, lh, data, Recover(g, d), isNew);
  }

  /** A recovery that runs to its end settles the outcome the phase had decided. */
  lemma RecoverOnce(g: Geometry, base: Disk, lh: seq<nat>, data: seq<Block>, d: Disk, isNew: bool)
    requires TxnOk(g, base, lh, data) && Phase(g, base, lh, data, d, isNew)
    ensures HeaderOk(g, d) && Phase(g, base, lh, data, Recover(g, d), isNew)
    ensures Settled(g, Recover(g, d), if isNew then NewDisk(g, base, lh, data) else base)
  {
    PhaseHeader(g, base, lh, data, d, isNew);
    var ws := RecoverWrites(g, d);
    assert ws[..|ws|] == ws;
    RecoverPrefix(g, base, lh, data, d, isNew, |ws|);
  }
}
