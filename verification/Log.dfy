/**
  log.c over the buffer cache: recording writes, committing them and recovering, as the block writes
  that reach the disk.  These are the sequential parts of the log; who may call them when is the
  subject of LogReserve, and what a crash between two of their writes does is that of LogCrash.
*/
module Log {
  import opened LogCrash
  import opened BufferCache
  import Machine
  import LogReserve

  datatype LogWriteResult = Recorded | TooBigATransaction | OutsideOfTransaction

  /** Exactly the logged blocks are pinned, once each, and are in the cache. */
  ghost predicate Pinned(c: Snap, dev: nat, lh: seq<nat>) {
    && (forall b :: b in lh ==> exists i: nat :: PinnedAt(c, dev, b, i))
    && (forall i :: 0 <= i < |c.pins| && c.pins[i] > 0 ==>
          i < |c.bufs| - 1 && c.pins[i] == 1 && c.bufs[i].valid && c.bufs[i].dev == dev && c.bufs[i].blockno in lh)
  }

  ghost predicate PinnedAt(c: Snap, dev: nat, b: nat, i: nat) {
    i < |c.pins| && c.pins[i] > 0 && Holds(c, i, dev, b)
  }

  /** Nobody holds a buffer. */
  ghost predicate Quiet(c: Snap) {
    forall i :: 0 <= i < |c.users| ==> c.users[i] == 0
  }

  /** The buffers somebody holds. */
  ghost function Held(users: seq<nat>): set<nat> {
    set i: nat | i < |users| && users[i] > 0
  }

  ghost predicate CleanAt(c: Snap, i: nat) {
    i < |c.bufs| && OnDisk(c, c.bufs[i].dev, c.bufs[i].blockno)
      && c.bufs[i].data == c.disk[c.bufs[i].dev][c.bufs[i].blockno]
  }

  /** Whoever holds a block that is not logged has not changed it. */
  ghost predicate Tidy(c: Snap) {
    forall i: nat :: i < |c.users| && i < |c.pins| && i < |c.bufs| ==>
      (c.users[i] > 0 && c.pins[i] == 0 && c.bufs[i].valid ==> CleanAt(c, i))
  }

  /** A block that a commit or a recovery of the blocks `busy` works on. */
  predicate InUse(g: Geometry, busy: seq<nat>, b: nat) {
    g.start <= b <= g.start + g.size || b in busy
  }

  /** Buffer `i` is none of theirs, and it is unchanged. */
  ghost predicate Aside(c: Snap, dev: nat, g: Geometry, busy: seq<nat>, i: nat) {
    i < |c.bufs| && !(c.bufs[i].dev == dev && InUse(g, busy, c.bufs[i].blockno)) && (c.bufs[i].valid ==> CleanAt(c, i))
  }

  /** Processes may hold buffers, but only to read other blocks. */
  ghost predicate Calm(c: Snap, dev: nat, g: Geometry, busy: seq<nat>) {
    forall i: nat :: i < |c.users| && c.users[i] > 0 ==> Aside(c, dev, g, busy, i)
  }

  lemma CalmTidy(c: Snap, dev: nat, g: Geometry, busy: seq<nat>)
    requires Calm(c, dev, g, busy)
    ensures Tidy(c)
  {
    forall i: nat | i < |c.users| && c.users[i] > 0 && i < |c.bufs| && c.bufs[i].valid ensures CleanAt(c, i) {
      assert Aside(c, dev, g, busy, i);
    }
  }

  lemma QuietCalm(c: Snap, dev: nat, g: Geometry, busy: seq<nat>)
    requires Quiet(c)
    ensures Calm(c, dev, g, busy) && Held(c.users) == {}
  {
  }

  lemma KeepsPinned(c: Snap, d: Snap, dev: nat, lh: seq<nat>)
    requires Ok(c) && Ok(d) && |c.bufs| == |d.bufs| && Keeps(c, d) && Pinned(c, dev, lh)
    ensures Pinned(d, dev, lh)
  {
    forall b | b in lh ensures exists i: nat :: PinnedAt(d, dev, b, i) {
      var i: nat :| PinnedAt(c, dev, b, i);
      assert KeepsOne(c, d, i);
      assert PinnedAt(d, dev, b, i);
    }
    forall i | 0 <= i < |d.pins| && d.pins[i] > 0
      ensures d.pins[i] == 1 && d.bufs[i].valid && d.bufs[i].dev == dev && d.bufs[i].blockno in lh
    {
      assert KeepsOne(c, d, i);
    }
  }

  /** The buffers of logged blocks, and those that somebody holds besides. */
  ghost function PinnedSet(c: Snap): set<nat> {
    set i: nat | i < |c.bufs| - 1 && i < |c.pins| && c.pins[i] > 0
  }

  ghost function HeldSet(c: Snap): set<nat> {
    set i: nat | i < |c.bufs| - 1 && i < |c.pins| == |c.users| && c.pins[i] == 0 && c.users[i] > 0
  }

  /** Where in the cache the first `n` logged blocks are. */
  ghost function SlotsUpTo(c: Snap, dev: nat, lh: seq<nat>, n: nat): (r: seq<nat>)
    requires Pinned(c, dev, lh) && n <= |lh|
    ensures |r| == n && forall t :: 0 <= t < n ==> PinnedAt(c, dev, lh[t], r[t])
  {
    if n == 0 then []
    else
      var b := lh[n - 1];
      assert b in lh;
      var i: nat :| PinnedAt(c, dev, b, i);
      SlotsUpTo(c, dev, lh, n - 1) + [i]
  }

  lemma SlotsDistinct(c: Snap, dev: nat, lh: seq<nat>, slots: seq<nat>)
    requires Machine.Distinct(lh) && |slots| == |lh| && forall t :: 0 <= t < |lh| ==> PinnedAt(c, dev, lh[t], slots[t])
    ensures Machine.Distinct(slots)
  {
    forall s, t | 0 <= s < t < |slots| ensures slots[s] != slots[t] {
      assert PinnedAt(c, dev, lh[s], slots[s]) && PinnedAt(c, dev, lh[t], slots[t]);
    }
  }

  lemma PinnedSlot(c: Snap, dev: nat, lh: seq<nat>, slots: seq<nat>, i: nat)
    requires Ok(c) && Pinned(c, dev, lh) && dev != 0
    requires |slots| == |lh| && forall t :: 0 <= t < |lh| ==> PinnedAt(c, dev, lh[t], slots[t])
    ensures i in PinnedSet(c) <==> i in slots
  {
    hide Ring;
    if i in PinnedSet(c) {
      var t :| 0 <= t < |lh| && lh[t] == c.bufs[i].blockno;
      var j := slots[t];
      assert PinnedAt(c, dev, lh[t], j);
      assert BufOk(c, i);
      HoldsOnce(c, i, j, dev, lh[t]);
    }
    if i in slots {
      var t :| 0 <= t < |slots| && slots[t] == i;
      assert PinnedAt(c, dev, lh[t], i);
    }
  }

  /** One pinned buffer for each logged block. */
  lemma PinnedCount(c: Snap, dev: nat, lh: seq<nat>)
    requires Ok(c) && Pinned(c, dev, lh) && Machine.Distinct(lh) && dev != 0
    ensures |PinnedSet(c)| == |lh|
  {
    hide Ok, Pinned, PinnedAt;
    var slots := SlotsUpTo(c, dev, lh, |lh|);
    SlotsDistinct(c, dev, lh, slots);
    ElemsSize(slots, |slots|);
    assert slots[..|slots|] == slots;
    forall i: nat ensures i in PinnedSet(c) <==> i in Elems(slots, |slots|) {
      PinnedSlot(c, dev, lh, slots, i);
    }
    assert Elems(slots, |slots|) == PinnedSet(c);
  }

  lemma BusyBuffers(c: Snap, i: nat)
    requires Ok(c) && i < |c.bufs| - 1
    ensures i in PinnedSet(c) + HeldSet(c) <==> c.bufs[i].refcnt != 0
  {
    hide Ring;
    assert BufOk(c, i);
  }

  /** The exact bound: bget can recycle a buffer if and only if the logged blocks and the buffers held besides are
      together fewer than NBUF. */
  lemma FreeBufferExactly(c: Snap, dev: nat, lh: seq<nat>)
    requires Ok(c) && Pinned(c, dev, lh) && Machine.Distinct(lh) && dev != 0
    ensures (exists i :: 0 <= i < |c.bufs| - 1 && c.bufs[i].refcnt == 0) <==> |lh| + |HeldSet(c)| < |c.bufs| - 1
  {
    assert |c.bufs| > 0;
    hide Ok, Pinned;
    var n, pinned, held := |c.bufs| - 1, PinnedSet(c), HeldSet(c);
    PinnedCount(c, dev, lh);
    forall i: nat | i < n ensures i in pinned + held <==> c.bufs[i].refcnt != 0 {
      BusyBuffers(c, i);
    }
    assert pinned !! held && |pinned + held| == |pinned| + |held|;
    assert forall i :: i in pinned + held ==> i < n;
    hide PinnedSet, HeldSet;
    SomeoneFree(n, pinned + held);
  }

  lemma SomeoneFree(n: nat, busy: set<nat>)
    requires forall i :: i in busy ==> i < n
    ensures (exists i: nat :: i < n && i !in busy) <==> |busy| < n
  {
    BelowSize(n);
    assert busy <= Below(n);
    assert Below(n) == busy + (Below(n) - busy);
    if |busy| == n {
      SubsetSame(busy, Below(n));
    }
    if forall i: nat :: i < n ==> i in busy {
      assert busy == Below(n);
    }
  }

  /** The device is there and all its blocks, on disk and as currently shown, are whole blocks. */
  ghost predicate Sized(c: Snap, dev: nat, g: Geometry) {
    && dev != 0 && dev in c.disk && g.Valid() && |c.disk[dev]| == g.nblocks
    && forall b: nat :: b < g.nblocks ==> SizedAt(c, dev, g, b)
  }

  ghost predicate SizedAt(c: Snap, dev: nat, g: Geometry, b: nat) {
    OnDisk(c, dev, b) && |c.disk[dev][b]| == |View(c, dev, b)| == g.words
  }

  lemma SizedSame(c: Snap, d: Snap, dev: nat, g: Geometry)
    requires Sized(c, dev, g) && SameViews(c, d)
    ensures Sized(d, dev, g)
  {
    forall b: nat | b < g.nblocks ensures SizedAt(d, dev, g, b) {
      assert SizedAt(c, dev, g, b);
    }
  }

  /** Logged blocks are distinct home blocks and fit in the log. */
  ghost predicate Listed(g: Geometry, lh: seq<nat>) {
    && |lh| <= g.size && (forall t :: 0 <= t < |lh| ==> g.Home(lh[t]))
    && (forall s, t :: 0 <= s < t < |lh| ==> lh[s] != lh[t])
  }

  /** In state `s` of the group commit protocol the log is this one, and process `p` is inside an operation. */
  ghost predicate Mirrors(s: LogReserve.State, p: nat, g: Geometry, lh: seq<nat>, outstanding: nat) {
    !s.panicked && p < |s.ops| && s.ops[p].In? && s.cap == g.size && s.lh == lh && s.outstanding == outstanding
  }

  // ---------------------------------------------------------------- the code

  class Logger {
    const cache: Cache
    const dev: nat
    const g: Geometry
    var lh: seq<nat>
    var outstanding: nat

    constructor (c: Cache, device: nat, geometry: Geometry)
      ensures cache == c && dev == device && g == geometry && lh == [] && outstanding == 0
    {
      cache, dev, g := c, device, geometry;
      lh, outstanding := [], 0;
    }

    /** The cache is sound, the device is there, logged blocks are distinct home blocks and pinned. */
    ghost predicate Valid()
      reads this, cache, cache.buf
    {
      cache.Valid() && Sized(cache.Now(), dev, g) && Listed(g, lh) && Pinned(cache.Now(), dev, lh)
    }

    /** log_write of a buffer its caller holds locked with new contents. */
    method LogWrite(b: nat) returns (r: LogWriteResult)
      requires Valid() && b < cache.nbuf && cache.buf[b].locked && cache.buf[b].valid
      requires cache.buf[b].dev == dev && g.Home(cache.buf[b].blockno)
      modifies this`lh, cache`pins, cache.buf
      ensures Valid() && SameViews(old(cache.Now()), cache.Now())
      ensures r.TooBigATransaction? <==> |old(lh)| >= g.size
      ensures r.OutsideOfTransaction? <==> |old(lh)| < g.size && outstanding < 1
      ensures !r.Recorded? ==> lh == old(lh) && cache.Now() == old(cache.Now())
      ensures forall i :: 0 <= i < cache.nbuf ==> cache.buf[i] == old(cache.buf[i]).(refcnt := cache.buf[i].refcnt)
      ensures r.Recorded? ==> lh == if old(cache.buf[b].blockno) in old(lh) then old(lh)
              else old(lh) + [old(cache.buf[b].blockno)]
      ensures forall s: LogReserve.State, p: nat :: Mirrors(s, p, g, old(lh), outstanding) ==>
                var t := LogReserve.Apply(s, LogReserve.LogWrite(p, old(cache.buf[b].blockno)));
                t.lh == lh && (t.panicked <==> !r.Recorded?)
    {
      hide View, SameViews, Ok, Sized, Pinned;
      ghost var c := cache.Now();
      if |lh| >= g.size {
        SameViewsRefl(c);
        return TooBigATransaction;
      }
      if outstanding < 1 {
        SameViewsRefl(c);
        return OutsideOfTransaction;
      }
      var blockno := cache.buf[b].blockno;
      var i := 0;
      while i < |lh| && lh[i] != blockno
        invariant 0 <= i <= |lh| && blockno !in lh[..i]
      {
        i := i + 1;
      }
      r := Recorded;
      if i == |lh| {
        assert lh[..i] == lh;
        cache.Bpin(b);
        lh := lh + [blockno];
        NewlyPinned(c, cache.Now(), dev, old(lh), b);
        SizedSame(c, cache.Now(), dev, g);
      } else {
        assert lh[i := blockno] == lh;
        lh := lh[i := blockno];
        SameViewsRefl(c);
      }
    }

    /** memmove(to->data, from->data); bwrite(to). */
    method CopyAndWrite(from: nat, to: nat)
      requires cache.Valid() && from < cache.nbuf && to < cache.nbuf && from != to
      requires cache.buf[from].valid && cache.buf[to].locked && cache.buf[to].valid && cache.buf[to].dev == dev
      modifies cache`disk, cache`trace, cache.buf
      ensures cache.Valid() && Keeps(old(cache.Now()), cache.Now())
      ensures cache.buf[..] == old(cache.buf[..])[to := old(cache.buf[to]).(data := old(cache.buf[from]).data)]
      ensures WroteBlock(old(cache.Now()), cache.Now(), dev, old(cache.buf[to]).blockno, old(cache.buf[from]).data)
      ensures cache.trace == old(cache.trace) + [(dev, Write(old(cache.buf[to]).blockno, old(cache.buf[from]).data))]
    {
      hide View;
      ghost var c := cache.Now();
      cache.Modify(to, cache.buf[from].data);
      cache.Bwrite(to);
    }

    /** bread of a block that only the log uses. */
    method BreadOwn(b: nat, ghost live: seq<nat>, ghost busy: seq<nat>) returns (i: nat)
      requires Good(cache, dev, g, live) && Calm(cache.Now(), dev, g, busy) && Machine.Distinct(live)
      requires InUse(g, busy, b) && b < g.nblocks && |live| + |Held(cache.users)| < cache.nbuf
      modifies cache`users, cache.buf
      ensures Good(cache, dev, g, live) && SameViews(old(cache.Now()), cache.Now()) && cache.pins == old(cache.pins)
      ensures i < cache.nbuf == |old(cache.users)| && old(cache.users)[i] == 0
              && cache.users == old(cache.users)[i := 1]
      ensures forall j :: 0 <= j < cache.nbuf && j != i ==> cache.buf[j] == old(cache.buf[j])
      ensures Loaded(cache.Now(), i, dev, b, old(cache.Now()))
    {
      hide View, SameViews, Sized, Pinned, Calm, Keeps, Ok, Held, InUse;
      ghost var c := cache.Now();
      Sizes(c);
      CalmReady(c, dev, g, live, busy, b);
      SizedBlock(c, dev, g, b);
      i := cache.BreadNow(dev, b);
      NotHeld(c, dev, g, busy, b, i);
      GoodStays(c, cache.Now(), dev, g, live);
    }

    /** bread, look at the contents, brelse. */
    method ReadBlock(b: nat) returns (data: Block)
      requires Valid() && Quiet(cache.Now()) && g.Home(b) && |lh| < cache.nbuf
      modifies cache, cache.buf
      ensures Valid() && Quiet(cache.Now()) && SameViews(old(cache.Now()), cache.Now())
              && cache.trace == old(cache.trace)
      ensures OnDisk(old(cache.Now()), dev, b) && data == View(old(cache.Now()), dev, b)
    {
      hide View, SameViews, Sized, Pinned, Quiet, Calm, Keeps, Ok, Held;
      ghost var c0 := cache.Now();
      QuietCalm(c0, dev, g, [b]);
      var i := BreadOwn(b, lh, [b]);
      ghost var c1 := cache.Now();
      data := cache.buf[i].data;
      PinnedIff(c1, dev, lh, i);
      if b !in lh {
        CalmTidy(c0, dev, g, [b]);
        TidyClean(c0, dev, g, lh, b);
        SameDisk(c0, c1);
      }
      cache.Brelse(i);
      GoodStays(c1, cache.Now(), dev, g, lh);
      SameViewsTrans(c0, c1, cache.Now());
      assert cache.users == c0.users;
      QuietAgain(c0, cache.Now());
    }

    /** What an operation does to a block: bread, change it, log_write, brelse.  The disk does not change. */
    method WriteBlock(b: nat, data: Block) returns (r: LogWriteResult)
      requires Valid() && Quiet(cache.Now()) && g.Home(b) && |data| == g.words
      requires |lh| < g.size && |lh| < cache.nbuf && outstanding >= 1
      modifies this`lh, cache, cache.buf
      ensures Valid() && Quiet(cache.Now()) && r.Recorded? && lh == if b in old(lh) then old(lh) else old(lh) + [b]
      ensures cache.disk == old(cache.disk) && cache.trace == old(cache.trace)
      ensures OnDisk(old(cache.Now()), dev, b) && ViewsSet(old(cache.Now()), cache.Now(), dev, b, data)
    {
      hide View, SameViews, Sized, Pinned, Quiet, Calm, Keeps, Ok, Held, ViewsSet;
      ghost var c0 := cache.Now();
      QuietCalm(c0, dev, g, [b]);
      var i := BreadOwn(b, lh, [b]);
      ghost var c1 := cache.Now();
      cache.Modify(i, data);
      ghost var c2 := cache.Now();
      Modified(c1, c2, dev, g, lh, i, data);
      r := LogWrite(i);
      ghost var c3 := cache.Now();
      PinnedIff(c3, dev, lh, i);
      cache.Brelse(i);
      GoodStays(c3, cache.Now(), dev, g, lh);
      assert cache.users == c0.users;
      QuietAgain(c0, cache.Now());
      SameDisk(c0, c1);
      SameDisk(c2, c3);
      SameDisk(c3, cache.Now());
      SetBetween(c0, c1, c2, c3, cache.Now(), dev, b, data);
    }

    /** bread of a log slot, then of a home block. */
    method BreadPair(slot: nat, home: nat, ghost live: seq<nat>, ghost busy: seq<nat>) returns (l: nat, h: nat)
      requires Good(cache, dev, g, live) && Calm(cache.Now(), dev, g, busy) && Machine.Distinct(live)
               && Within(live, busy)
      requires g.start <= slot <= g.start + g.size && slot < g.nblocks && slot !in live && home < g.nblocks
               && slot != home && home in busy
      requires |live| + |Held(cache.users)| + (if home in live then 0 else 1) < cache.nbuf
      modifies cache`users, cache.buf
      ensures Good(cache, dev, g, live) && SameViews(old(cache.Now()), cache.Now())
      ensures l < cache.nbuf && h < cache.nbuf && l != h && |old(cache.users)| == cache.nbuf
      ensures old(cache.users)[l] == old(cache.users)[h] == 0 && cache.users == old(cache.users)[l := 1][h := 1]
      ensures forall i :: 0 <= i < cache.nbuf && i != l && i != h ==> cache.buf[i] == old(cache.buf[i])
      ensures Loaded(cache.Now(), l, dev, slot, old(cache.Now())) && Loaded(cache.Now(), h, dev, home, old(cache.Now()))
      ensures cache.pins[l] == 0 && (home in live <==> cache.pins[h] > 0)
    {
      hide View, SameViews, Sized, Pinned, Calm, Keeps, Ok, Loaded, Held, Within;
      ghost var c0 := cache.Now();
      l := BreadOwn(slot, live, busy);
      ghost var c1 := cache.Now();
      SizedBlock(c1, dev, g, home);
      OneUserReady(c0, c1, dev, g, live, busy, l, slot, home);
      h := cache.BreadNow(dev, home);
      ghost var c2 := cache.Now();
      GoodStays(c1, c2, dev, g, live);
      PairLoaded(c0, c1, c2, dev, g, live, busy, l, h, slot, home);
    }

    /** brelse of both buffers. */
    method BrelsePair(a: nat, b: nat, ghost live: seq<nat>, ghost users0: seq<nat>)
      requires Good(cache, dev, g, live) && a < cache.nbuf && b < cache.nbuf && a != b
      requires |users0| == cache.nbuf && users0[a] == users0[b] == 0 && cache.users == users0[a := 1][b := 1]
      requires Releasable(cache.Now(), a) && Releasable(cache.Now(), b)
      modifies cache`users, cache`order, cache.buf
      ensures Good(cache, dev, g, live) && SameViews(old(cache.Now()), cache.Now()) && cache.users == users0
      ensures forall i :: 0 <= i < cache.nbuf && i != a && i != b ==> Relinked(old(cache.buf[i]), cache.buf[i])
    {
      hide View, SameViews, Sized, Pinned, Keeps, Ok;
      ghost var c0 := cache.Now();
      cache.Brelse(a);
      ghost var c1 := cache.Now();
      GoodStays(c0, c1, dev, g, live);
      SameDisk(c0, c1);
      cache.Brelse(b);
      GoodStays(c1, cache.Now(), dev, g, live);
      SameViewsTrans(c0, c1, cache.Now());
      assert cache.users == users0;
    }

    /** One round of write_log: the cached contents of a logged block go to its log slot. */
    method LogOne(tail: nat)
      requires Valid() && Calm(cache.Now(), dev, g, lh) && tail < |lh| && |lh| + |Held(cache.users)| < cache.nbuf
      modifies cache, cache.buf
      ensures Valid() && Calm(cache.Now(), dev, g, lh) && cache.users == old(cache.users)
              && OnDisk(old(cache.Now()), dev, lh[tail])
      ensures WroteBlock(old(cache.Now()), cache.Now(), dev, LogSlot(g, tail), View(old(cache.Now()), dev, lh[tail]))
      ensures cache.trace == old(cache.trace) + [(dev, Write(LogSlot(g, tail), View(old(cache.Now()), dev, lh[tail])))]
    {
      hide View, SameViews, Sized, Pinned, Calm, Keeps, Ok, ViewsSet, WroteBlock, Held;
      var slot := LogSlot(g, tail);
      ghost var c0 := cache.Now();
      Bounds(c0, dev, g);
      var to, from := BreadPair(slot, lh[tail], lh, lh);
      ghost var c1, data := cache.Now(), cache.buf[from].data;
      SizedBlock(c0, dev, g, lh[tail]);
      CopyAndWrite(from, to);
      ghost var c2 := cache.Now();
      GoodWrote(c1, c2, dev, g, lh, slot, data);
      WroteAfter(c0, c1, c2, dev, slot, data);
      JustWrote(c1, c2, dev, slot, data);
      Sizes(c2);
      BrelsePair(from, to, lh, c0.users);
      WroteThen(c0, c2, cache.Now(), dev, slot, data);
      CalmStays(c0, cache.Now(), dev, g, lh, slot, data);
    }

    /** One round of install_trans: a log slot's contents go home; `live` are the blocks still pinned,
        and outside of recovery this block is the first of them and is unpinned. */
    method InstallOne(slot: nat, home: nat, recovering: bool, ghost live: seq<nat>, ghost busy: seq<nat>)
      requires Good(cache, dev, g, live) && Calm(cache.Now(), dev, g, busy) && Listed(g, live) && Within(live, busy)
      requires g.start <= slot <= g.start + g.size && slot < g.nblocks && slot != home && slot !in live && g.Home(home)
               && home in busy
      requires if recovering then live == [] else live != [] && live[0] == home
      requires |live| + |Held(cache.users)| + (if recovering then 1 else 0) < cache.nbuf
      modifies cache, cache.buf
      ensures Good(cache, dev, g, if recovering then [] else live[1..]) && Calm(cache.Now(), dev, g, busy)
              && cache.users == old(cache.users)
      ensures OnDisk(old(cache.Now()), dev, slot)
      ensures WroteBlock(old(cache.Now()), cache.Now(), dev, home, View(old(cache.Now()), dev, slot))
      ensures cache.trace == old(cache.trace) + [(dev, Write(home, View(old(cache.Now()), dev, slot)))]
    {
      hide View, SameViews, Sized, Pinned, Calm, Keeps, Ok, ViewsSet, WroteBlock, Held;
      ghost var c0 := cache.Now();
      Bounds(c0, dev, g);
      var l, d := BreadPair(slot, home, live, busy);
      ghost var c1, data := cache.Now(), cache.buf[l].data;
      SizedBlock(c0, dev, g, slot);
      CopyAndWrite(l, d);
      ghost var c2 := cache.Now();
      GoodWrote(c1, c2, dev, g, live, home, data);
      WroteAfter(c0, c1, c2, dev, home, data);
      JustWrote(c0, c2, dev, home, data);
      CalmTidy(c0, dev, g, busy);
      TidyClean(c0, dev, g, live, slot);
      Sizes(c2);
      if !recovering {
        cache.Bunpin(d);
        FirstUnpinned(c2, cache.Now(), dev, live, d);
        SizedSame(c2, cache.Now(), dev, g);
        SameDisk(c2, cache.Now());
      } else {
        SameViewsRefl(c2);
      }
      ghost var c3 := cache.Now();
      WroteThen(c0, c2, c3, dev, home, data);
      Sizes(c3);
      BrelsePair(l, d, if recovering then [] else live[1..], c0.users);
      WroteThen(c0, c3, cache.Now(), dev, home, data);
      CalmStays(c0, cache.Now(), dev, g, busy, home, data);
    }

    /** write_head: the in-memory list goes to the header block; `live` are the pinned blocks. */
    method WriteHead(ghost live: seq<nat>, ghost busy: seq<nat>)
      requires Good(cache, dev, g, live) && Calm(cache.Now(), dev, g, busy) && Listed(g, live) && Within(live, busy)
      requires |lh| <= g.size && |live| + |Held(cache.users)| < cache.nbuf
      modifies cache, cache.buf
      ensures Good(cache, dev, g, live) && Calm(cache.Now(), dev, g, busy) && cache.users == old(cache.users)
      ensures OnDisk(old(cache.Now()), dev, g.start) && |old(cache.disk)[dev][g.start]| == g.words > |lh|
      ensures WroteBlock(old(cache.Now()), cache.Now(), dev, g.start, Header(old(cache.disk)[dev][g.start], lh))
      ensures cache.trace == old(cache.trace) + [(dev, Write(g.start, Header(old(cache.disk)[dev][g.start], lh)))]
    {
      hide View, SameViews, Sized, Pinned, Calm, Keeps, Ok, ViewsSet, WroteBlock, Held;
      ghost var c0 := cache.Now();
      Bounds(c0, dev, g);
      CalmTidy(c0, dev, g, busy);
      TidyClean(c0, dev, g, live, g.start);
      SizedBlock(c0, dev, g, g.start);
      var b := BreadOwn(g.start, live, busy);
      ghost var c1 := cache.Now();
      var data := Header(cache.buf[b].data, lh);
      Overwrite(b, data);
      ghost var c2 := cache.Now();
      GoodWrote(c1, c2, dev, g, live, g.start, data);
      WroteAfter(c0, c1, c2, dev, g.start, data);
      JustWrote(c0, c2, dev, g.start, data);
      cache.Brelse(b);
      ghost var c3 := cache.Now();
      GoodStays(c2, c3, dev, g, live);
      WroteThen(c0, c2, c3, dev, g.start, data);
      assert c3.users == c0.users;
      CalmStays(c0, c3, dev, g, busy, g.start, data);
    }

    /** Change a held buffer and bwrite it. */
    method Overwrite(b: nat, data: Block)
      requires cache.Valid() && b < cache.nbuf && cache.buf[b].locked && cache.buf[b].valid && cache.buf[b].dev == dev
      modifies cache`disk, cache`trace, cache.buf
      ensures cache.Valid() && Keeps(old(cache.Now()), cache.Now())
      ensures cache.buf[..] == old(cache.buf[..])[b := old(cache.buf[b]).(data := data)]
      ensures WroteBlock(old(cache.Now()), cache.Now(), dev, old(cache.buf[b]).blockno, data)
      ensures cache.trace == old(cache.trace) + [(dev, Write(old(cache.buf[b]).blockno, data))]
    {
      hide View;
      cache.Modify(b, data);
      cache.Bwrite(b);
    }

    /** write_log: the blocks' current contents, in order, to the log's data blocks. */
    method WriteLog(ghost data: seq<Block>)
      requires Valid() && Calm(cache.Now(), dev, g, lh) && |lh| + |Held(cache.users)| < cache.nbuf
      requires Shows(cache.Now(), dev, lh, data)
      modifies cache, cache.buf
      ensures Valid() && Calm(cache.Now(), dev, g, lh) && cache.users == old(cache.users)
      ensures Emitted(old(cache.disk), old(cache.trace), cache.disk, cache.trace, dev,
              BlockWrites(LogSlots(g, |lh|), data))
    {
      hide View, SameViews, Sized, Pinned, Calm, Keeps, Ok, ViewsSet, WroteBlock, BlockWrites, LogSlots, Emitted, Shows,
        Held;
      ghost var slots := LogSlots(g, |lh|);
      ShowsSize(cache.Now(), dev, lh, data);
      ghost var ws := BlockWrites(slots, data);
      SlotWrites(cache.Now(), dev, g, lh, data);
      EmittedNothing(cache.Now(), cache.trace, dev, g);
      assert ws[..0] == [];
      for tail := 0 to |lh|
        invariant Valid() && Calm(cache.Now(), dev, g, lh) && cache.users == old(cache.users)
                  && Shows(cache.Now(), dev, lh, data)
        invariant Emitted(old(cache.disk), old(cache.trace), cache.disk, cache.trace, dev, ws[..tail])
      {
        ghost var c, t := cache.Now(), cache.trace;
        LogOne(tail);
        SlotNotLogged(g, lh, tail);
        ShowsStill(c, cache.Now(), dev, g, lh, data, LogSlot(g, tail), View(c, dev, lh[tail]));
        ShowsAt(c, dev, lh, data, tail);
        EmittedMore(old(cache.disk), old(cache.trace), c, t, cache.Now(), cache.trace, dev, ws, tail);
      }
      assert ws[..|lh|] == ws;
    }

    /** install_trans: the log's data blocks, in order, to the listed home blocks. */
    method InstallTrans(blocks: seq<nat>, recovering: bool)
      requires Calm(cache.Now(), dev, g, blocks) && |blocks| <= g.size && forall b :: b in blocks ==> g.Home(b)
      requires Good(cache, dev, g, if recovering then [] else blocks) && (recovering || Listed(g, blocks))
      requires (if recovering then 1 else |blocks|) + |Held(cache.users)| < cache.nbuf
      modifies cache, cache.buf
      ensures Good(cache, dev, g, []) && Calm(cache.Now(), dev, g, blocks) && cache.users == old(cache.users)
      ensures dev in old(cache.disk) && DiskOk(g, old(cache.disk)[dev])
      ensures Emitted(old(cache.disk), old(cache.trace), cache.disk, cache.trace, dev,
                      BlockWrites(blocks, LogData(g, old(cache.disk)[dev], |blocks|)))
    {
      hide View, SameViews, Sized, Pinned, Calm, Keeps, Ok, ViewsSet, WroteBlock, BlockWrites, Emitted, DiskOk, LogData,
        Held;
      ghost var d0 := SizedDisk(cache.Now(), dev, g);
      ghost var data := LogData(g, d0, |blocks|);
      ghost var ws := BlockWrites(blocks, data);
      EmittedNothing(cache.Now(), cache.trace, dev, g);
      assert ws[..0] == [];
      for tail := 0 to |blocks|
        invariant Good(cache, dev, g, if recovering then [] else blocks[tail..])
        invariant Calm(cache.Now(), dev, g, blocks) && cache.users == old(cache.users)
        invariant Emitted(old(cache.disk), old(cache.trace), cache.disk, cache.trace, dev, ws[..tail])
      {
        ghost var live := if recovering then [] else blocks[tail..];
        assert blocks[tail..][1..] == blocks[tail + 1..];
        ghost var c, t := cache.Now(), cache.trace;
        assert blocks[tail] in blocks;
        LiveListed(g, blocks, tail, recovering);
        CalmTidy(c, dev, g, blocks);
        InstallSource(c, old(cache.disk), old(cache.trace), t, dev, g, live, blocks, d0, tail);
        InstallOne(LogSlot(g, tail), blocks[tail], recovering, live, blocks);
        EmittedMore(old(cache.disk), old(cache.trace), c, t, cache.Now(), cache.trace, dev, ws, tail);
      }
      assert ws[..|blocks|] == ws && blocks[|blocks|..] == [];
    }

    /** commit: `data` is what the logged blocks show when it starts. */
    method Commit(ghost data: seq<Block>)
      requires Valid() && Calm(cache.Now(), dev, g, lh) && |lh| + |Held(cache.users)| < cache.nbuf
               && Shows(cache.Now(), dev, lh, data)
      modifies this`lh, cache, cache.buf
      ensures Valid() && Calm(cache.Now(), dev, g, old(lh)) && cache.users == old(cache.users) && lh == []
      ensures dev in old(cache.disk) && DiskOk(g, old(cache.disk)[dev]) && |data| == |old(lh)| <= g.size
      ensures Emitted(old(cache.disk), old(cache.trace), cache.disk, cache.trace, dev,
                      CommitWrites(g, old(cache.disk)[dev][g.start], old(lh), data))
    {
      hide View, SameViews, Sized, Pinned, Calm, Keeps, Ok, ViewsSet, WroteBlock, BlockWrites, Emitted, DiskOk, LogData,
        Shows, LogSlots, CommitWrites,
        Held;
      ghost var d0, disk0, t0, n := SizedDisk(cache.Now(), dev, g), cache.disk, cache.trace, |lh|;
      ShowsSize(cache.Now(), dev, lh, data);
      CommitPieces(g, d0, lh, data);
      if |lh| > 0 {
        WriteLog(data);
        ghost var c1, t1 := cache.Now(), cache.trace;
        AfterLog(g, disk0, t0, c1, t1, dev, d0, lh, data);
        WriteHead(lh, lh);
        ghost var c2, t2 := cache.Now(), cache.trace;
        EmittedOne(disk0, t0, c1, t1, c2, t2, dev, BlockWrites(LogSlots(g, n), data),
          Write(g.start, Header(d0[g.start], lh)));
        AfterHead(g, c1, c2, dev, d0, lh, data);
        ListedHome(g, lh);
        InstallTrans(lh, false);
        ghost var c3, t3 := cache.Now(), cache.trace;
        EmittedJoin(disk0, t0, c2.disk, t2, c3.disk, t3, dev,
                    BlockWrites(LogSlots(g, n), data) + [Write(g.start, Header(d0[g.start], lh))],
                    BlockWrites(lh, data));
        AfterInstall(g, c2, t2, c3, t3, dev, lh, data);
        lh := [];
        WriteHead([], old(lh));
        EmittedOne(disk0, t0, c3, t3, cache.Now(), cache.trace, dev,
                   BlockWrites(LogSlots(g, n), data) + [Write(g.start, Header(d0[g.start], old(lh)))]
                     + BlockWrites(old(lh), data),
                   Write(g.start, Header(Header(d0[g.start], old(lh)), [])));
      } else {
        EmittedNothing(cache.Now(), cache.trace, dev, g);
      }
    }

    /** recover_from_log on a cache that holds nothing yet. */
    method Recover()
      requires Good(cache, dev, g, []) && Quiet(cache.Now()) && cache.nbuf >= 2 && HeaderOk(g, cache.disk[dev])
      modifies this`lh, cache, cache.buf
      ensures Valid() && Quiet(cache.Now()) && lh == []
      ensures Emitted(old(cache.disk), old(cache.trace), cache.disk, cache.trace, dev,
              RecoverWrites(g, old(cache.disk)[dev]))
    {
      hide View, SameViews, Sized, Pinned, Quiet, Calm, Keeps, Ok, ViewsSet, WroteBlock, BlockWrites, Emitted, LogData,
        Held;
      ghost var d0, c0, t0 := SizedDisk(cache.Now(), dev, g), cache.Now(), cache.trace;
      var blocks := ReadHead();
      ghost var c1 := cache.Now();
      QuietCalm(c1, dev, g, blocks);
      InstallTrans(blocks, true);
      ghost var c2, t2 := cache.Now(), cache.trace;
      RecoverHeader(g, c1, t0, c2, t2, dev, d0);
      lh := [];
      WriteHead([], blocks);
      QuietAgain(c1, cache.Now());
      EmittedOne(c0.disk, t0, c2, t2, cache.Now(), cache.trace, dev,
                 BlockWrites(blocks, LogData(g, d0, |blocks|)), Write(g.start, Header(d0[g.start], [])));
    }

    /** read_head: the list announced by the header block. */
    method ReadHead() returns (blocks: seq<nat>)
      requires Good(cache, dev, g, []) && Quiet(cache.Now()) && cache.nbuf >= 2 && HeaderOk(g, cache.disk[dev])
      modifies cache`users, cache`order, cache.buf
      ensures Good(cache, dev, g, []) && Quiet(cache.Now()) && cache.disk == old(cache.disk)
      ensures blocks == Logged(g, cache.disk[dev])
    {
      hide View, SameViews, Sized, Pinned, Quiet, Calm, Keeps, Ok, Held;
      ghost var c0 := cache.Now();
      QuietCalm(c0, dev, g, []);
      CalmTidy(c0, dev, g, []);
      TidyClean(c0, dev, g, [], g.start);
      var b := BreadOwn(g.start, [], []);
      ghost var c1 := cache.Now();
      var n := cache.buf[b].data[0];
      blocks := [];
      for i := 0 to n
        invariant blocks == cache.buf[b].data[1..1 + i]
      {
        blocks := blocks + [cache.buf[b].data[1 + i]];
      }
      SameDisk(c0, c1);
      cache.Brelse(b);
      GoodStays(c1, cache.Now(), dev, g, []);
      SameDisk(c1, cache.Now());
      assert cache.users == c0.users;
      QuietAgain(c0, cache.Now());
    }
  }

  ghost function SizedDisk(c: Snap, dev: nat, g: Geometry): (d: Disk)
    requires Sized(c, dev, g)
    ensures dev in c.disk && d == c.disk[dev] && DiskOk(g, d)
  {
    SizedDiskOk(c, dev, g);
    c.disk[dev]
  }

  lemma SizedDiskOk(c: Snap, dev: nat, g: Geometry)
    requires Sized(c, dev, g)
    ensures dev in c.disk && DiskOk(g, c.disk[dev])
  {
    forall b | 0 <= b < g.nblocks ensures |c.disk[dev][b]| == g.words {
      assert SizedAt(c, dev, g, b);
    }
  }

  lemma LiveListed(g: Geometry, blocks: seq<nat>, tail: nat, recovering: bool)
    requires tail < |blocks| <= g.size && (recovering || Listed(g, blocks)) && forall b :: b in blocks ==> g.Home(b)
    ensures Listed(g, if recovering then [] else blocks[tail..])
    ensures LogSlot(g, tail) !in blocks && LogSlot(g, tail) !in blocks[tail..]
    ensures g.Valid() ==> LogSlot(g, tail) < g.nblocks
  {
  }

  lemma ListedHome(g: Geometry, lh: seq<nat>)
    requires Listed(g, lh)
    ensures forall b :: b in lh ==> g.Home(b)
  {
  }

  /** What install_trans reads for entry `tail` is what the log held when it started. */
  lemma InstallSource(c: Snap, disk0: map<nat, Disk>, t0: seq<(nat, Write)>, t: seq<(nat, Write)>, dev: nat,
                      g: Geometry,
                      live: seq<nat>, blocks: seq<nat>, d0: Disk, tail: nat)
    requires Ok(c) && Tidy(c) && Sized(c, dev, g) && Pinned(c, dev, live) && tail < |blocks| <= g.size
    requires dev in disk0 && disk0[dev] == d0 && DiskOk(g, d0) && LogSlot(g, tail) !in live
             && LogSlot(g, tail) !in blocks
    requires forall b :: b in blocks ==> g.Home(b)
    requires Emitted(disk0, t0, c.disk, t, dev, BlockWrites(blocks, LogData(g, d0, |blocks|))[..tail])
    ensures OnDisk(c, dev, LogSlot(g, tail)) && g.Valid()
    ensures BlockWrites(blocks, LogData(g, d0, |blocks|))[tail] == Write(blocks[tail], View(c, dev, LogSlot(g, tail)))
  {
    var data := LogData(g, d0, |blocks|);
    TidyClean(c, dev, g, live, LogSlot(g, tail));
    forall t | 0 <= t < |blocks| ensures blocks[t] < |d0| && blocks[t] != LogSlot(g, tail) {
      assert blocks[t] in blocks;
      assert g.Home(blocks[t]);
    }
    PrefixMisses(d0, blocks, data, tail, LogSlot(g, tail));
  }

  lemma EmittedOne(disk0: map<nat, Disk>, t0: seq<(nat, Write)>, c: Snap, t: seq<(nat, Write)>, d: Snap,
                   t': seq<(nat, Write)>,
                   dev: nat, ws: seq<Write>, w: Write)
    requires Emitted(disk0, t0, c.disk, t, dev, ws) && WroteBlock(c, d, dev, w.bno, w.data) && t' == t + [(dev, w)]
    ensures Emitted(disk0, t0, d.disk, t', dev, ws + [w])
  {
    var all := ws + [w];
    assert all[..|ws|] == ws && all[..|all|] == all;
    EmittedMore(disk0, t0, c, t, d, t', dev, all, |ws|);
  }

  lemma EmittedJoin(disk0: map<nat, Disk>, t0: seq<(nat, Write)>, disk1: map<nat, Disk>, t1: seq<(nat, Write)>,
                    disk2: map<nat, Disk>, t2: seq<(nat, Write)>, dev: nat, a: seq<Write>, b: seq<Write>)
    requires Emitted(disk0, t0, disk1, t1, dev, a) && Emitted(disk1, t1, disk2, t2, dev, b)
    ensures Emitted(disk0, t0, disk2, t2, dev, a + b)
  {
    AfterConcat(disk0[dev], a, b);
    assert t2 == t0 + seq(|a + b|, i requires 0 <= i < |a + b| => (dev, (a + b)[i]));
  }

  lemma CommitPieces(g: Geometry, d0: Disk, lh: seq<nat>, data: seq<Block>)
    requires DiskOk(g, d0) && |data| == |lh| <= g.size
    ensures g.start < |d0|
    ensures var hdr := d0[g.start];
            && |lh| + 1 <= |hdr|
            && CommitWrites(g, hdr, lh, data) ==
               if lh == [] then []
               else BlockWrites(LogSlots(g, |lh|), data) + [Write(g.start, Header(hdr, lh))] + BlockWrites(lh, data)
                    + [Write(g.start, Header(Header(hdr, lh), []))]
  {
  }

  /** After write_log: the header is untouched, the log's data blocks are `data`. */
  lemma AfterLog(g: Geometry, disk0: map<nat, Disk>, t0: seq<(nat, Write)>, c: Snap, t: seq<(nat, Write)>, dev: nat,
                 d0: Disk, lh: seq<nat>, data: seq<Block>)
    requires dev in disk0 && disk0[dev] == d0 && DiskOk(g, d0) && |data| == |lh| <= g.size && Sized(c, dev, g)
    requires Emitted(disk0, t0, c.disk, t, dev, BlockWrites(LogSlots(g, |lh|), data))
    ensures dev in c.disk && DiskOk(g, c.disk[dev]) && c.disk[dev][g.start] == d0[g.start]
            && LogData(g, c.disk[dev], |lh|) == data
  {
    var slots, n := LogSlots(g, |lh|), |lh|;
    var d := SizedDisk(c, dev, g);
    assert BlockWrites(slots, data)[..n] == BlockWrites(slots, data);
    assert d == Prefix(d0, slots, data, n);
    PrefixMisses(d0, slots, data, n, g.start);
    forall i | 0 <= i < n ensures LogData(g, d, n)[i] == data[i] {
      PrefixHits(d0, slots, data, n, i);
    }
  }

  lemma AfterHead(g: Geometry, c: Snap, d: Snap, dev: nat, d0: Disk, lh: seq<nat>, data: seq<Block>)
    requires Sized(c, dev, g) && Sized(d, dev, g) && |lh| <= g.size && dev in c.disk && DiskOk(g, c.disk[dev])
             && |lh| + 1 <= |c.disk[dev][g.start]|
    requires WroteBlock(c, d, dev, g.start, Header(c.disk[dev][g.start], lh)) && LogData(g, c.disk[dev], |lh|) == data
    ensures dev in d.disk && DiskOk(g, d.disk[dev]) && d.disk[dev][g.start] == Header(c.disk[dev][g.start], lh)
    ensures LogData(g, d.disk[dev], |lh|) == data
  {
    var e := SizedDisk(d, dev, g);
    assert LogData(g, e, |lh|) == LogData(g, c.disk[dev], |lh|);
  }

  lemma AfterInstall(g: Geometry, c: Snap, t: seq<(nat, Write)>, d: Snap, t': seq<(nat, Write)>, dev: nat, lh: seq<nat>,
                     data: seq<Block>)
    requires Sized(c, dev, g) && |data| == |lh| && dev in c.disk && DiskOk(g, c.disk[dev])
    requires forall b :: b in lh ==> g.Home(b)
    requires Emitted(c.disk, t, d.disk, t', dev, BlockWrites(lh, data))
    ensures dev in d.disk && |d.disk[dev]| == g.nblocks && d.disk[dev][g.start] == c.disk[dev][g.start]
  {
    assert BlockWrites(lh, data)[..|lh|] == BlockWrites(lh, data);
    forall i | 0 <= i < |lh| ensures lh[i] < g.nblocks && lh[i] != g.start {
      assert lh[i] in lh;
      assert g.Home(lh[i]);
    }
    PrefixMisses(c.disk[dev], lh, data, |lh|, g.start);
  }

  lemma RecoverHeader(g: Geometry, c: Snap, t: seq<(nat, Write)>, d: Snap, t': seq<(nat, Write)>, dev: nat, d0: Disk)
    requires Sized(c, dev, g) && dev in c.disk && c.disk[dev] == d0 && HeaderOk(g, d0)
    requires Emitted(c.disk, t, d.disk, t', dev, BlockWrites(Logged(g, d0), LogData(g, d0, |Logged(g, d0)|)))
    ensures dev in d.disk && |d.disk[dev]| == g.nblocks && d.disk[dev][g.start] == d0[g.start]
  {
    AfterInstall(g, c, t, d, t', dev, Logged(g, d0), LogData(g, d0, |Logged(g, d0)|));
  }

  /** `data[t]` is what block `lh[t]` currently shows. */
  ghost predicate Shows(c: Snap, dev: nat, lh: seq<nat>, data: seq<Block>) {
    |data| == |lh| && forall t :: 0 <= t < |lh| ==> OnDisk(c, dev, lh[t]) && View(c, dev, lh[t]) == data[t]
  }

  lemma ShowsSize(c: Snap, dev: nat, lh: seq<nat>, data: seq<Block>)
    requires Shows(c, dev, lh, data)
    ensures |data| == |lh|
  {
  }

  lemma ShowsAt(c: Snap, dev: nat, lh: seq<nat>, data: seq<Block>, t: nat)
    requires Shows(c, dev, lh, data) && t < |lh|
    ensures |data| == |lh| && OnDisk(c, dev, lh[t]) && View(c, dev, lh[t]) == data[t]
  {
  }

  lemma ShowsStill(c: Snap, d: Snap, dev: nat, g: Geometry, lh: seq<nat>, data: seq<Block>, b: nat, x: Block)
    requires Shows(c, dev, lh, data) && WroteBlock(c, d, dev, b, x) && b !in lh
    ensures Shows(d, dev, lh, data)
  {
  }

  lemma SlotNotLogged(g: Geometry, lh: seq<nat>, t: nat)
    requires Listed(g, lh) && t < g.size
    ensures LogSlot(g, t) !in lh && g.start !in lh
  {
  }

  /** The block writes `ws` on `dev`, and nothing else, happened between two states of disk and trace. */
  ghost predicate Emitted(disk0: map<nat, Disk>, t0: seq<(nat, Write)>, disk1: map<nat, Disk>, t1: seq<(nat, Write)>,
                          dev: nat, ws: seq<Write>)
  {
    && dev in disk0 && (forall w :: w in ws ==> w.bno < |disk0[dev]|)
    && t1 == t0 + seq(|ws|, i requires 0 <= i < |ws| => (dev, ws[i]))
    && disk1 == disk0[dev := After(disk0[dev], ws)]
  }

  lemma EmittedNothing(c: Snap, t: seq<(nat, Write)>, dev: nat, g: Geometry)
    requires Sized(c, dev, g)
    ensures Emitted(c.disk, t, c.disk, t, dev, [])
  {
  }

  lemma EmittedMore(disk0: map<nat, Disk>, t0: seq<(nat, Write)>, c: Snap, t: seq<(nat, Write)>, d: Snap,
                    t': seq<(nat, Write)>,
                    dev: nat, ws: seq<Write>, k: nat)
    requires k < |ws| && Emitted(disk0, t0, c.disk, t, dev, ws[..k])
    requires WroteBlock(c, d, dev, ws[k].bno, ws[k].data) && t' == t + [(dev, ws[k])]
    ensures Emitted(disk0, t0, d.disk, t', dev, ws[..k + 1])
  {
    var a, b := ws[..k], ws[..k + 1];
    assert b[..k] == a && b == a + [ws[k]];
    forall w | w in b ensures w.bno < |disk0[dev]| {
      assert w in a || w == ws[k];
    }
    assert t' == t0 + seq(|b|, i requires 0 <= i < |b| => (dev, b[i]));
  }

  lemma SlotWrites(c: Snap, dev: nat, g: Geometry, lh: seq<nat>, data: seq<Block>)
    requires Shows(c, dev, lh, data)
    ensures |data| == |lh|
    ensures var ws := BlockWrites(LogSlots(g, |lh|), data);
            |ws| == |lh| && forall t :: 0 <= t < |lh| ==> ws[t] == Write(LogSlot(g, t), data[t])
  {
  }

  lemma Sizes(c: Snap)
    requires Ok(c)
    ensures |c.users| == |c.pins| == |c.bufs| - 1
  {
  }

  lemma JustWrote(c: Snap, d: Snap, dev: nat, b: nat, data: Block)
    requires WroteBlock(c, d, dev, b, data)
    ensures OnDisk(c, dev, b) && OnDisk(d, dev, b) && d.disk == c.disk[dev := c.disk[dev][b := data]]
    ensures d.disk[dev][b] == data && forall x: nat ::
              x != b && OnDisk(c, dev, x) ==> OnDisk(d, dev, x) && d.disk[dev][x] == c.disk[dev][x]
  {
  }

  /** A block that is not logged looks as it does on disk unless somebody who holds it has changed it. */
  lemma TidyClean(c: Snap, dev: nat, g: Geometry, live: seq<nat>, b: nat)
    requires Ok(c) && Tidy(c) && Sized(c, dev, g) && Pinned(c, dev, live) && b < g.nblocks && b !in live
    ensures OnDisk(c, dev, b) && View(c, dev, b) == c.disk[dev][b]
  {
    assert SizedAt(c, dev, g, b);
    if i: nat :| Holds(c, i, dev, b) {
      ViewIs(c, i, dev, b);
      assert BufOk(c, i);
    }
  }

  lemma FirstUnpinned(c: Snap, d: Snap, dev: nat, live: seq<nat>, i: nat)
    requires Ok(c) && Ok(d) && Pinned(c, dev, live) && i < |c.bufs| - 1 && |d.bufs| == |c.bufs| && live != []
    requires forall s, t :: 0 <= s < t < |live| ==> live[s] != live[t]
    requires c.bufs[i].dev == dev != 0 && c.bufs[i].blockno == live[0] && c.pins[i] > 0
    requires d == c.(bufs := c.bufs[i := c.bufs[i].(refcnt := c.bufs[i].refcnt - 1)],
             pins := c.pins[i := c.pins[i] - 1])
    ensures Pinned(d, dev, live[1..])
  {
    forall b | b in live[1..] ensures exists j: nat :: PinnedAt(d, dev, b, j) {
      assert b in live;
      var j: nat :| PinnedAt(c, dev, b, j);
      assert PinnedAt(d, dev, b, j);
    }
    forall j | 0 <= j < |d.pins| && d.pins[j] > 0 ensures d.bufs[j].blockno in live[1..] {
      assert j != i && c.pins[j] > 0;
      assert !SameBlock(c.bufs[if i < j then i else j], c.bufs[if i < j then j else i]);
    }
  }

  lemma Bounds(c: Snap, dev: nat, g: Geometry)
    requires Sized(c, dev, g)
    ensures g.Valid() && dev != 0
  {
  }

  /** The cache is sound, its blocks are whole, and exactly the blocks `live` are pinned. */
  ghost predicate Good(cache: Cache, dev: nat, g: Geometry, live: seq<nat>)
    reads cache, cache.buf
  {
    cache.Valid() && Sized(cache.Now(), dev, g) && Pinned(cache.Now(), dev, live)
  }

  /** Buffer `i`, locked, holds block `b` as it was shown in `c`. */
  ghost predicate Loaded(d: Snap, i: nat, dev: nat, b: nat, c: Snap) {
    && i < |d.bufs| && d.bufs[i].locked && d.bufs[i].valid && d.bufs[i].dev == dev && d.bufs[i].blockno == b
    && OnDisk(c, dev, b) && d.bufs[i].data == View(c, dev, b)
  }

  ghost predicate Releasable(c: Snap, i: nat) {
    && i < |c.bufs| - 1 && i < |c.pins| && c.bufs[i].locked
    && (c.bufs[i].valid && c.pins[i] == 0 ==>
          OnDisk(c, c.bufs[i].dev, c.bufs[i].blockno) && c.bufs[i].data == c.disk[c.bufs[i].dev][c.bufs[i].blockno])
  }

  lemma SameDisk(c: Snap, d: Snap)
    requires SameViews(c, d)
    ensures c.disk == d.disk
  {
  }

  lemma PairLoaded(c0: Snap, c1: Snap, c2: Snap, dev: nat, g: Geometry, live: seq<nat>, busy: seq<nat>, l: nat, h: nat,
                   slot: nat, home: nat)
    requires Ok(c0) && Ok(c1) && Ok(c2) && Calm(c0, dev, g, busy) && Pinned(c2, dev, live) && dev != 0 && slot != home
             && slot !in live
    requires home in busy && l < |c0.users| && c0.users[l] == 0
    requires |c0.bufs| == |c1.bufs| == |c2.bufs| && l < |c0.bufs| - 1 && h < |c0.bufs| - 1
    requires forall i :: 0 <= i < |c0.bufs| - 1 && i != l ==> c1.bufs[i] == c0.bufs[i]
    requires SameViews(c0, c1) && SameViews(c1, c2) && OnDisk(c1, dev, home)
    requires c1.users == c0.users[l := 1] && c2.users == c1.users[h := c1.users[h] + 1] && Loaded(c1, l, dev, slot, c0)
    requires c2.bufs[h].locked && c2.bufs[h].valid && c2.bufs[h].dev == dev && c2.bufs[h].blockno == home
    requires c2.bufs[h].data == View(c1, dev, home)
    requires forall i :: 0 <= i < |c1.bufs| - 1 && i != h ==> c2.bufs[i] == c1.bufs[i]
    requires c1.bufs[h].refcnt > 0 ==> c1.bufs[h].dev == dev && c1.bufs[h].blockno == home
    ensures l != h && |c0.users| == |c0.bufs| - 1 && c0.users[h] == 0 && c2.users == c0.users[l := 1][h := 1]
            && SameViews(c0, c2)
    ensures Loaded(c2, l, dev, slot, c0) && Loaded(c2, h, dev, home, c0)
    ensures c2.pins[l] == 0 && (home in live <==> c2.pins[h] > 0)
  {
    assert BufOk(c1, l);
    assert h != l;
    NotHeld(c0, dev, g, busy, home, h);
    hide Calm;
    SameViewsTrans(c0, c1, c2);
    PinnedIff(c2, dev, live, l);
    PinnedIff(c2, dev, live, h);
  }

  /** Changing a buffer that is held keeps blocks whole and pins where they are. */
  lemma Modified(c: Snap, d: Snap, dev: nat, g: Geometry, lh: seq<nat>, i: nat, data: Block)
    requires Ok(c) && Ok(d) && i < |c.bufs| - 1 && d == c.(bufs := c.bufs[i := c.bufs[i].(data := data)])
    requires Sized(c, dev, g) && Pinned(c, dev, lh) && |data| == g.words && c.bufs[i].dev == dev
    requires OnDisk(c, dev, c.bufs[i].blockno) && ViewsSet(c, d, dev, c.bufs[i].blockno, data)
    ensures Sized(d, dev, g) && Pinned(d, dev, lh)
  {
    forall j | 0 <= j < |c.pins| && c.pins[j] > 0 ensures KeepsOne(c, d, j) {}
    KeepsPinned(c, d, dev, lh);
    hide Ok, Pinned, View;
    forall x: nat | x < g.nblocks ensures SizedAt(d, dev, g, x) {
      assert SizedAt(c, dev, g, x);
    }
  }

  lemma SetBetween(c0: Snap, c1: Snap, c2: Snap, c3: Snap, c4: Snap, dev: nat, b: nat, data: Block)
    requires SameViews(c0, c1) && OnDisk(c1, dev, b) && ViewsSet(c1, c2, dev, b, data)
    requires SameViews(c2, c3) && SameViews(c3, c4)
    ensures OnDisk(c0, dev, b) && ViewsSet(c0, c4, dev, b, data)
  {
    hide View;
    SameViewsTrans(c2, c3, c4);
    forall e: nat, x: nat ensures OnDisk(c0, e, x) <==> OnDisk(c4, e, x) {
      assert OnDisk(c1, e, x) <==> OnDisk(c2, e, x);
    }
    forall e: nat, x: nat | OnDisk(c0, e, x) && (e, x) != (dev, b) ensures View(c4, e, x) == View(c0, e, x) {
      assert OnDisk(c1, e, x) && OnDisk(c2, e, x);
    }
  }

  lemma PinnedIff(c: Snap, dev: nat, live: seq<nat>, i: nat)
    requires Ok(c) && Pinned(c, dev, live) && i < |c.bufs| - 1 && c.bufs[i].dev == dev != 0
    ensures c.bufs[i].blockno in live <==> c.pins[i] > 0
  {
    if c.bufs[i].blockno in live {
      PinnedCached(c, dev, live, c.bufs[i].blockno);
    }
  }

  predicate Within(live: seq<nat>, busy: seq<nat>) {
    forall b :: b in live ==> b in busy
  }

  /** A buffer that bread gave for one of the log's blocks was not held before. */
  lemma NotHeld(c: Snap, dev: nat, g: Geometry, busy: seq<nat>, b: nat, i: nat)
    requires Ok(c) && Calm(c, dev, g, busy) && InUse(g, busy, b) && i < |c.bufs| - 1
    requires c.bufs[i].refcnt > 0 ==> c.bufs[i].dev == dev && c.bufs[i].blockno == b
    ensures |c.users| == |c.bufs| - 1 && c.users[i] == 0
  {
    hide Ring, InUse;
    assert BufOk(c, i);
    assert c.users[i] > 0 ==> Aside(c, dev, g, busy, i);
  }

  /** Nobody has locked the log's block `b`, and a buffer is free. */
  lemma CalmReady(c: Snap, dev: nat, g: Geometry, live: seq<nat>, busy: seq<nat>, b: nat)
    requires Ok(c) && Calm(c, dev, g, busy) && Sized(c, dev, g) && Pinned(c, dev, live) && Machine.Distinct(live)
    requires |live| + |Held(c.users)| < |c.bufs| - 1 && InUse(g, busy, b)
    ensures exists i :: 0 <= i < |c.bufs| - 1 && c.bufs[i].refcnt == 0
    ensures forall i :: 0 <= i < |c.bufs| - 1 && c.bufs[i].dev == dev && c.bufs[i].blockno == b ==> !c.bufs[i].locked
    ensures g.Valid()
  {
    FreeBufferExactly(c, dev, live);
    HeldAtMost(c, Held(c.users));
    hide InUse, Pinned;
    forall i: nat | i < |c.bufs| - 1 && c.bufs[i].dev == dev && c.bufs[i].blockno == b ensures !c.bufs[i].locked {
      assert BufOk(c, i);
      NotHeld(c, dev, g, busy, b, i);
    }
  }

  lemma HeldAtMost(c: Snap, users: set<nat>)
    requires forall i: nat :: i < |c.users| && c.users[i] > 0 ==> i in users
    ensures |HeldSet(c)| <= |users|
  {
    assert HeldSet(c) <= users;
    assert users == HeldSet(c) + (users - HeldSet(c));
  }

  /** With buffer `l` in use besides, the next bread finds its block or a free buffer. */
  lemma OneUserReady(c0: Snap, c: Snap, dev: nat, g: Geometry, live: seq<nat>, busy: seq<nat>, l: nat, slot: nat,
                     home: nat)
    requires Ok(c0) && Ok(c) && Calm(c0, dev, g, busy) && |c.bufs| == |c0.bufs| && Sized(c, dev, g)
             && Pinned(c, dev, live)
    requires l < |c.bufs| - 1 && l < |c0.users| && c.users == c0.users[l := 1] && Loaded(c, l, dev, slot, c0)
    requires forall i :: 0 <= i < |c.bufs| - 1 && i != l ==> c.bufs[i] == c0.bufs[i]
    requires slot != home && home in busy && Machine.Distinct(live)
    requires |live| + |Held(c0.users)| + (if home in live then 0 else 1) < |c.bufs| - 1
    ensures exists i ::
              0 <= i < |c.bufs| - 1 && (c.bufs[i].refcnt == 0 || (c.bufs[i].dev == dev && c.bufs[i].blockno == home))
    ensures forall i :: 0 <= i < |c.bufs| - 1 && c.bufs[i].dev == dev && c.bufs[i].blockno == home ==> !c.bufs[i].locked
  {
    if home in live {
      PinnedCached(c, dev, live, home);
    } else {
      FreeBufferExactly(c, dev, live);
      HeldAtMost(c, Held(c0.users) + {l});
    }
    hide Pinned;
    forall i: nat | i < |c.bufs| - 1 && c.bufs[i].dev == dev && c.bufs[i].blockno == home ensures !c.bufs[i].locked {
      assert BufOk(c0, i);
      NotHeld(c0, dev, g, busy, home, i);
    }
  }

  /** Writing one of the log's blocks disturbs nobody. */
  lemma CalmStays(c: Snap, d: Snap, dev: nat, g: Geometry, busy: seq<nat>, b: nat, data: Block)
    requires Calm(c, dev, g, busy) && WroteBlock(c, d, dev, b, data) && InUse(g, busy, b)
    requires d.users == c.users && |d.bufs| == |c.bufs|
    requires forall i: nat :: i < |c.users| && c.users[i] > 0 && i < |c.bufs| ==> Relinked(c.bufs[i], d.bufs[i])
    ensures Calm(d, dev, g, busy)
  {
    hide InUse, ViewsSet;
    forall i: nat | i < |d.users| && d.users[i] > 0 ensures Aside(d, dev, g, busy, i) {
      assert Aside(c, dev, g, busy, i);
      assert Relinked(c.bufs[i], d.bufs[i]);
    }
  }

  lemma QuietAgain(c: Snap, d: Snap)
    requires Quiet(c) && d.users == c.users
    ensures Quiet(d)
  {
  }

  lemma SizedBlock(c: Snap, dev: nat, g: Geometry, b: nat)
    requires Sized(c, dev, g) && b < g.nblocks
    ensures SizedAt(c, dev, g, b)
  {
  }

  lemma GoodStays(c: Snap, d: Snap, dev: nat, g: Geometry, lh: seq<nat>)
    requires Ok(c) && Ok(d) && |c.bufs| == |d.bufs| && SameViews(c, d) && Keeps(c, d)
    requires Sized(c, dev, g) && Pinned(c, dev, lh)
    ensures Sized(d, dev, g) && Pinned(d, dev, lh)
  {
    SizedSame(c, d, dev, g);
    KeepsPinned(c, d, dev, lh);
  }

  lemma GoodWrote(c: Snap, d: Snap, dev: nat, g: Geometry, lh: seq<nat>, b: nat, data: Block)
    requires Ok(c) && Ok(d) && |c.bufs| == |d.bufs| && Keeps(c, d) && WroteBlock(c, d, dev, b, data)
             && |data| == g.words
    requires Sized(c, dev, g) && Pinned(c, dev, lh)
    ensures Sized(d, dev, g) && Pinned(d, dev, lh)
  {
    KeepsPinned(c, d, dev, lh);
    forall x: nat | x < g.nblocks ensures SizedAt(d, dev, g, x) {
      assert SizedAt(c, dev, g, x);
    }
  }

  lemma PinnedCached(c: Snap, dev: nat, lh: seq<nat>, b: nat)
    requires Ok(c) && Pinned(c, dev, lh) && b in lh && dev != 0
    ensures exists i :: 0 <= i < |c.bufs| - 1 && c.bufs[i].dev == dev && c.bufs[i].blockno == b
    ensures forall i :: 0 <= i < |c.bufs| - 1 && c.bufs[i].dev == dev && c.bufs[i].blockno == b ==> c.pins[i] > 0
  {
    var j: nat :| PinnedAt(c, dev, b, j);
    forall i | 0 <= i < |c.bufs| - 1 && c.bufs[i].dev == dev && c.bufs[i].blockno == b ensures c.pins[i] > 0 {
      assert SameBlock(c.bufs[i], c.bufs[j]) && SameBlock(c.bufs[j], c.bufs[i]);
    }
  }

  /** `d` is `c` after `data` was written to block `b`, on disk and as shown. */
  ghost predicate WroteBlock(c: Snap, d: Snap, dev: nat, b: nat, data: Block) {
    && OnDisk(c, dev, b)
    && d.disk == c.disk[dev := c.disk[dev][b := data]]
    && ViewsSet(c, d, dev, b, data)
  }

  lemma WroteAfter(c: Snap, d: Snap, e: Snap, dev: nat, b: nat, data: Block)
    requires SameViews(c, d) && WroteBlock(d, e, dev, b, data)
    ensures WroteBlock(c, e, dev, b, data)
  {
    assert forall x: nat, y: nat :: OnDisk(c, x, y) <==> OnDisk(d, x, y);
  }

  lemma WroteThen(c: Snap, d: Snap, e: Snap, dev: nat, b: nat, data: Block)
    requires WroteBlock(c, d, dev, b, data) && SameViews(d, e)
    ensures WroteBlock(c, e, dev, b, data) && OnDisk(d, dev, b) && d.disk[dev][b] == data
  {
    assert forall x: nat, y: nat :: OnDisk(d, x, y) <==> OnDisk(e, x, y);
  }

  /** Pinning the buffer of a block that was not logged. */
  lemma NewlyPinned(c: Snap, d: Snap, dev: nat, lh: seq<nat>, i: nat)
    requires Ok(c) && Ok(d) && Pinned(c, dev, lh) && i < |c.bufs| - 1 && |d.bufs| == |c.bufs|
    requires c.bufs[i].valid && c.bufs[i].dev == dev && c.bufs[i].blockno !in lh
    requires d == c.(bufs := c.bufs[i := c.bufs[i].(refcnt := c.bufs[i].refcnt + 1)],
             pins := c.pins[i := c.pins[i] + 1])
    ensures Pinned(d, dev, lh + [c.bufs[i].blockno])
  {
    var b := c.bufs[i].blockno;
    assert c.pins[i] == 0;
    forall x | x in lh + [b] ensures exists j: nat :: PinnedAt(d, dev, x, j) {
      if x in lh {
        var j: nat :| PinnedAt(c, dev, x, j);
        assert PinnedAt(d, dev, x, j);
      } else {
        assert PinnedAt(d, dev, x, i);
      }
    }
  }

  // ---------------------------------------------------------------- what a crash can leave of a commit

  lemma TxnFromCache(c: Snap, dev: nat, g: Geometry, lh: seq<nat>, data: seq<Block>)
    requires Sized(c, dev, g) && Listed(g, lh) && Shows(c, dev, lh, data)
    requires c.disk[dev][g.start] != [] && c.disk[dev][g.start][0] == 0
    ensures TxnOk(g, c.disk[dev], lh, data)
  {
    SizedDiskOk(c, dev, g);
    forall t | 0 <= t < |lh| ensures |data[t]| == g.words {
      assert g.Home(lh[t]) && SizedAt(c, dev, g, lh[t]);
    }
  }

  /** The new contents of the home blocks are what the cache showed when commit began. */
  lemma NewDiskShown(c: Snap, dev: nat, g: Geometry, lh: seq<nat>, data: seq<Block>, b: nat)
    requires Ok(c) && Tidy(c) && Sized(c, dev, g) && Pinned(c, dev, lh) && Listed(g, lh) && Shows(c, dev, lh, data)
    requires TxnOk(g, c.disk[dev], lh, data) && g.Home(b)
    ensures OnDisk(c, dev, b) && NewDisk(g, c.disk[dev], lh, data)[b] == View(c, dev, b)
  {
    var base, n := c.disk[dev], |lh|;
    assert BlockWrites(lh, data)[..n] == BlockWrites(lh, data);
    assert SizedAt(c, dev, g, b);
    if t :| 0 <= t < n && lh[t] == b {
      PrefixHits(base, lh, data, n, t);
    } else {
      PrefixMisses(base, lh, data, n, b);
      TidyClean(c, dev, g, lh, b);
    }
  }

  /** A commit that runs to its end leaves every home block as the cache showed it, and a clear log. */
  lemma CommitSettles(c: Snap, dev: nat, g: Geometry, lh: seq<nat>, data: seq<Block>)
    requires Ok(c) && Tidy(c) && Sized(c, dev, g) && Pinned(c, dev, lh) && Listed(g, lh) && Shows(c, dev, lh, data)
    requires c.disk[dev][g.start] != [] && c.disk[dev][g.start][0] == 0 && |lh| + 1 <= |c.disk[dev][g.start]|
    ensures forall w :: w in CommitWrites(g, c.disk[dev][g.start], lh, data) ==> w.bno < |c.disk[dev]|
    ensures var d := After(c.disk[dev], CommitWrites(g, c.disk[dev][g.start], lh, data));
            && DiskOk(g, d) && d[g.start][0] == 0
            && forall b: nat | g.Home(b) :: OnDisk(c, dev, b) && d[b] == View(c, dev, b)
  {
    SizedDiskOk(c, dev, g);
    var base := c.disk[dev];
    var ws := CommitWrites(g, base[g.start], lh, data);
    hide Ok, Sized, Pinned, Shows, Tidy, View, After, CommitWrites, NewDisk, TxnOk;
    TxnFromCache(c, dev, g, lh, data);
    assert ws[..|ws|] == ws;
    if lh == [] {
      assert ws == [] by { NothingToCommit(g, base, lh, data); }
      AfterNothing(base);
      forall b: nat | g.Home(b) ensures OnDisk(c, dev, b) && base[b] == View(c, dev, b) {
        TidyClean(c, dev, g, lh, b);
      }
    } else {
      CommitPrefix(g, base, lh, data, |ws|);
      CommitLength(g, base, lh, data);
      forall b: nat | g.Home(b) ensures OnDisk(c, dev, b) && NewDisk(g, base, lh, data)[b] == View(c, dev, b) {
        NewDiskShown(c, dev, g, lh, data, b);
      }
    }
  }

  lemma NothingToCommit(g: Geometry, base: Disk, lh: seq<nat>, data: seq<Block>)
    requires TxnOk(g, base, lh, data) && lh == []
    ensures CommitWrites(g, base[g.start], lh, data) == []
  {
  }

  lemma AfterNothing(d: Disk)
    ensures After(d, []) == d
  {
  }

  lemma CommitLength(g: Geometry, base: Disk, lh: seq<nat>, data: seq<Block>)
    requires TxnOk(g, base, lh, data) && lh != []
    ensures |CommitWrites(g, base[g.start], lh, data)| > |lh|
  {
  }

  /** Crash after any `k` block writes of the commit, then in any number of recoveries; once a recovery
      completes, every home block holds what the cache showed when commit began if the header write was
      among the `k`, and otherwise what the disk held then. */
  lemma CommitIsAtomic(c: Snap, dev: nat, g: Geometry, lh: seq<nat>, data: seq<Block>, k: nat, d: Disk,
                       crashes: seq<nat>, e: Disk)
    requires Ok(c) && Tidy(c) && Sized(c, dev, g) && Pinned(c, dev, lh) && Listed(g, lh) && Shows(c, dev, lh, data)
    requires c.disk[dev][g.start] != [] && c.disk[dev][g.start][0] == 0
    requires |lh| + 1 <= |c.disk[dev][g.start]| && k <= |CommitWrites(g, c.disk[dev][g.start], lh, data)|
    requires forall w :: w in CommitWrites(g, c.disk[dev][g.start], lh, data)[..k] ==> w.bno < |c.disk[dev]|
    requires d == After(c.disk[dev], CommitWrites(g, c.disk[dev][g.start], lh, data)[..k])
    requires CrashedRecoveries(g, d, crashes, e)
    ensures HeaderOk(g, e) && DiskOk(g, Recover(g, e))
    ensures forall b: nat | g.Home(b) ::
              OnDisk(c, dev, b) && Recover(g, e)[b] == if k > |lh| then View(c, dev, b) else c.disk[dev][b]
  {
    SizedDiskOk(c, dev, g);
    hide Ok, Sized, Pinned, Listed, Shows, Tidy, View, CrashedRecoveries, After, CommitWrites, NewDisk, Recover, TxnOk;
    TxnFromCache(c, dev, g, lh, data);
    CrashAtomicity(g, c.disk[dev], lh, data, k, d, crashes, e);
    assert DiskOk(g, Recover(g, e));
    forall b: nat | g.Home(b)
      ensures OnDisk(c, dev, b) && Recover(g, e)[b] == if k > |lh| then View(c, dev, b) else c.disk[dev][b]
    {
      NewDiskShown(c, dev, g, lh, data, b);
    }
  }
}
