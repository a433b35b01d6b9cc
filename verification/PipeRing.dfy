/**
  The pipe's ring buffer: `data`, `nread` and `nwrite`, and the copy loops that run between two sleeps.

  The counters are uint32 and wrap at 2^32; the capacity is any divisor of 2^32 below it (512 in
  versions 1-2, 4 x 512 in version 3, 4096 in versions 4-8).  User memory is the sequence of bytes
  readable from the user address on: a copyin past its end fails after moving what it could reach.
*/
module PipeRing {
  import opened Machine

  predicate Capacity(cap: nat) {
    0 < cap < W32 && DividesRange(cap)
  }

  predicate DividesRange(cap: nat)
    requires cap > 0
  {
    W32 % cap == 0
  }

  /** The `n` bytes held from counter `nread` on. */
  function Held(d: seq<byte>, nread: nat, n: nat): (r: seq<byte>)
    requires |d| > 0
    ensures |r| == n
  {
    seq(n, j requires 0 <= j < n => d[SlotAt(nread, j, |d|)])
  }

  /** Version 1's loop as a value: one byte after another at `SlotAt(nwrite, 0, cap)`. */
  function PutBytes(d: seq<byte>, nwrite: nat, bytes: seq<byte>): (r: seq<byte>)
    requires Capacity(|d|) && nwrite < W32
    ensures |r| == |d|
    decreases |bytes|
  {
    if bytes == [] then d
    else PutBytes(d[SlotAt(nwrite, 0, |d|) := bytes[0]], Bump(nwrite, 1, W32), bytes[1..])
  }

  // ---------------------------------------------------------------- slots and counters

  /** Until the end of the buffer, slots are consecutive; then they start over at 0. */
  lemma SlotAdvance(c: nat, k: nat, cap: nat)
    requires cap > 0 && SlotAt(c, 0, cap) + k <= cap
    ensures SlotAt(c, k, cap) == if SlotAt(c, 0, cap) + k == cap then 0 else SlotAt(c, 0, cap) + k
  {
    var q, r := c / cap, c % cap;
    assert c + k == q * cap + (r + k);
    if r + k == cap {
      assert c + k == (q + 1) * cap;
      DivModUnique(c + k, cap, q + 1, 0);
    } else {
      DivModUnique(c + k, cap, q, r + k);
    }
  }

  /** Counting from `c` or from a counter `k` further on reaches the same slots, because the capacity
      divides the range of the counters. */
  lemma SlotFrom(c: nat, k: nat, j: nat, cap: nat)
    requires Capacity(cap) && c < W32 && k <= W32
    ensures SlotAt(Bump(c, k, W32), j, cap) == SlotAt(c, k + j, cap)
  {
    SlotWraps(c, k, j, cap, W32);
  }

  /** Two bumps are one, and the distance grows by what was added. */
  lemma BumpTwice(nread: nat, nwrite: nat, done: nat, k: nat)
    requires nread < W32 && nwrite < W32 && Dist(nread, nwrite, W32) + done + k < W32
    ensures Bump(Bump(nwrite, done, W32), k, W32) == Bump(nwrite, done + k, W32)
    ensures Dist(nread, Bump(nwrite, done + k, W32), W32) == Dist(nread, nwrite, W32) + done + k
  {
  }

  /** The kernel's wrapping test `nwrite == nread + cap` is true exactly on a full ring. */
  lemma FullTest(nread: nat, nwrite: nat, cap: nat)
    requires nread < W32 && nwrite < W32 && cap < W32 && Dist(nread, nwrite, W32) <= cap
    ensures nwrite == Bump(nread, cap, W32) <==> Dist(nread, nwrite, W32) == cap
    ensures nwrite == Bump(nread, Dist(nread, nwrite, W32), W32)
  {
  }

  // ---------------------------------------------------------------- what PutBytes means

  /** First in, first out, whatever the counters' values: the held bytes grow at the end, also across
      the end of the buffer and across the 32-bit wrap of either counter. */
  lemma {:induction false} PutBytesAppends(d: seq<byte>, nread: nat, n: nat, bytes: seq<byte>)
    requires Capacity(|d|) && nread < W32 && n + |bytes| <= |d|
    ensures Held(PutBytes(d, Bump(nread, n, W32), bytes), nread, n + |bytes|) == Held(d, nread, n) + bytes
    decreases |bytes|
  {
    hide SlotAt;
    if bytes == [] {
      assert n + |bytes| == n;
    } else {
      var slot := SlotAt(Bump(nread, n, W32), 0, |d|);
      var d1 := d[slot := bytes[0]];
      SlotFrom(nread, n, 0, |d|);
      forall j | 0 <= j < n ensures d1[SlotAt(nread, j, |d|)] == d[SlotAt(nread, j, |d|)] {
        SlotsDiffer(nread, j, n, |d|);
      }
      assert Held(d1, nread, n + 1) == Held(d, nread, n) + [bytes[0]];
      assert Bump(Bump(nread, n, W32), 1, W32) == Bump(nread, n + 1, W32);
      PutBytesAppends(d1, nread, n + 1, bytes[1..]);
      assert Held(d, nread, n) + [bytes[0]] + bytes[1..] == Held(d, nread, n) + bytes;
    }
  }

  lemma PutNothing(d: seq<byte>, nwrite: nat)
    requires Capacity(|d|) && nwrite < W32
    ensures PutBytes(d, nwrite, []) == d && Bump(nwrite, 0, W32) == nwrite
  {
  }

  lemma PutBytesOne(d: seq<byte>, nwrite: nat, b: byte)
    requires Capacity(|d|) && nwrite < W32
    ensures PutBytes(d, nwrite, [b]) == d[SlotAt(nwrite, 0, |d|) := b]
  {
    assert [b][1..] == [];
  }

  /** Overwriting one position and then the block behind it is overwriting the longer block. */
  lemma SplicesJoin(d: seq<byte>, slot: nat, bytes: seq<byte>)
    requires 0 < |bytes| && slot + |bytes| <= |d|
    ensures d[slot := bytes[0]][..slot + 1] + bytes[1..] + d[slot := bytes[0]][slot + |bytes|..]
         == d[..slot] + bytes + d[slot + |bytes|..]
  {
    var d1 := d[slot := bytes[0]];
    assert d1[slot + |bytes|..] == d[slot + |bytes|..];
    assert d1[..slot + 1] == d[..slot] + [bytes[0]];
    assert bytes == [bytes[0]] + bytes[1..];
    assert d1[..slot + 1] + bytes[1..] == d[..slot] + bytes;
  }

  /** A block copy that does not cross the end of the buffer is that many single-byte puts. */
  lemma {:induction false} PutBytesIsBlockCopy(d: seq<byte>, nwrite: nat, bytes: seq<byte>)
    requires Capacity(|d|) && nwrite < W32 && SlotAt(nwrite, 0, |d|) + |bytes| <= |d|
    ensures var slot := SlotAt(nwrite, 0, |d|);
            PutBytes(d, nwrite, bytes) == d[..slot] + bytes + d[slot + |bytes|..]
    decreases |bytes|
  {
    hide SlotAt, DividesRange;
    var slot := SlotAt(nwrite, 0, |d|);
    if bytes == [] {
      assert d[..slot] + bytes + d[slot..] == d;
    } else {
      SplicesJoin(d, slot, bytes);
      if |bytes| == 1 {
        assert bytes[1..] == [];
        PutBytesOne(d, nwrite, bytes[0]);
        assert bytes == [bytes[0]];
        assert d[slot := bytes[0]] == d[..slot] + bytes + d[slot + |bytes|..];
      } else {
        SlotAdvance(nwrite, 1, |d|);
        SlotFrom(nwrite, 1, 0, |d|);
        PutBytesIsBlockCopy(d[slot := bytes[0]], Bump(nwrite, 1, W32), bytes[1..]);
      }
    }
  }

  /** Two batches are one batch. */
  lemma {:induction false} PutBytesConcat(d: seq<byte>, nwrite: nat, a: seq<byte>, b: seq<byte>)
    requires Capacity(|d|) && nwrite < W32 && |a| <= W32
    ensures PutBytes(PutBytes(d, nwrite, a), Bump(nwrite, |a|, W32), b) == PutBytes(d, nwrite, a + b)
    decreases |a|
  {
    hide SlotAt;
    if a == [] {
      assert a + b == b;
    } else {
      assert (a + b)[1..] == a[1..] + b;
      assert Bump(Bump(nwrite, 1, W32), |a| - 1, W32) == Bump(nwrite, |a|, W32);
      PutBytesConcat(d[SlotAt(nwrite, 0, |d|) := a[0]], Bump(nwrite, 1, W32), a[1..], b);
    }
  }

  /** One more byte, and one more block, on top of what was put before. */
  lemma PutOneMore(d: seq<byte>, nwrite: nat, src: seq<byte>, i0: nat, i: nat)
    requires Capacity(|d|) && nwrite < W32 && i0 <= i < |src| && i - i0 <= W32
    ensures var d1 := PutBytes(d, nwrite, src[i0..i]);
            PutBytes(d, nwrite, src[i0..i + 1]) == d1[SlotAt(Bump(nwrite, i - i0, W32), 0, |d|) := src[i]]
  {
    hide SlotAt;
    assert src[i0..i] + [src[i]] == src[i0..i + 1];
    PutBytesConcat(d, nwrite, src[i0..i], [src[i]]);
    PutBytesOne(PutBytes(d, nwrite, src[i0..i]), Bump(nwrite, i - i0, W32), src[i]);
  }

  lemma PutBlockMore(d: seq<byte>, nwrite: nat, src: seq<byte>, i0: nat, i: nat, k: nat)
    requires Capacity(|d|) && nwrite < W32 && i0 <= i <= i + k <= |src| && i - i0 <= W32
    requires SlotAt(Bump(nwrite, i - i0, W32), 0, |d|) + k <= |d|
    ensures var d1 := PutBytes(d, nwrite, src[i0..i]);
            var slot := SlotAt(Bump(nwrite, i - i0, W32), 0, |d|);
            PutBytes(d, nwrite, src[i0..i + k]) == d1[..slot] + src[i..i + k] + d1[slot + k..]
  {
    hide SlotAt;
    assert src[i0..i] + src[i..i + k] == src[i0..i + k];
    PutBytesConcat(d, nwrite, src[i0..i], src[i..i + k]);
    PutBytesIsBlockCopy(PutBytes(d, nwrite, src[i0..i]), Bump(nwrite, i - i0, W32), src[i..i + k]);
  }

  /** min of what is asked for, what there is room for, and what is contiguous. */
  function Chunk(want: nat, room: nat, rest: nat): (k: nat)
    requires want > 0 && room > 0 && rest > 0
    ensures 1 <= k <= want && k <= room && k <= rest && (k == want || k == room || k == rest)
  {
    Min(want, Min(room, rest))
  }

  /** A copy that stopped at `i`, having started at `i0`: there is more to do, it stands at the start of a buffer
      unless it
      has done nothing, and the next chunk is larger than the `avail - i` bytes that can still be copied. */
  predicate CutShort(i0: nat, i: nat, n: int, avail: nat, room: int, col: int, width: nat) {
    && i0 <= i < n && 0 < room && 0 <= col < width && (i == i0 || col == 0)
    && i <= avail < i + Chunk(n - i, room, width - col)
  }

  lemma CutHere(i0: nat, i: nat, n: int, avail: nat, room: nat, col: nat, width: nat)
    requires i0 <= i < n && 0 < room && col < width && (i == i0 || col == 0) && i <= avail
    requires avail < i + Chunk(n - i, room, width - col)
    ensures CutShort(i0, i, n, avail, room, col, width)
  {
  }

  /** Everything one successful chunk changes, in terms of the whole stretch since `i0`. */
  lemma ChunkDone(d0: seq<byte>, nread: nat, nw0: nat, src: seq<byte>, i0: nat, i: nat, k: nat)
    requires Capacity(|d0|) && nread < W32 && nw0 < W32 && i0 <= i <= i + k <= |src|
    requires Dist(nread, nw0, W32) + (i + k - i0) <= |d0|
    requires SlotAt(Bump(nw0, i - i0, W32), 0, |d0|) + k <= |d0|
    ensures var nwrite, slot := Bump(nw0, i - i0, W32), SlotAt(Bump(nw0, i - i0, W32), 0, |d0|);
            var d1, nwrite' := PutBytes(d0, nw0, src[i0..i]), Bump(nwrite, k, W32);
            && PutBytes(d0, nw0, src[i0..i + k]) == d1[..slot] + src[i..i + k] + d1[slot + k..]
            && nwrite' == Bump(nw0, i + k - i0, W32)
            && Dist(nread, nwrite', W32) == Dist(nread, nw0, W32) + (i + k - i0)
            && (nwrite' == Bump(nread, |d0|, W32) <==> Dist(nread, nw0, W32) + (i + k - i0) == |d0|)
            && SlotAt(nwrite', 0, |d0|) == if slot + k == |d0| then 0 else slot + k
  {
    hide SlotAt, PutBytes;
    var nwrite := Bump(nw0, i - i0, W32);
    PutBlockMore(d0, nw0, src, i0, i, k);
    BumpTwice(nread, nw0, i - i0, k);
    SlotAdvance(nwrite, k, |d0|);
    SlotFrom(nwrite, k, 0, |d0|);
    FullTest(nread, Bump(nwrite, k, W32), |d0|);
  }

  /** A failed copyin only scribbled on the room. */
  lemma ChunkFailed(d0: seq<byte>, d: seq<byte>, nread: nat, nw0: nat, src: seq<byte>, i0: nat, i: nat, k: nat)
    requires Capacity(|d0|) && nread < W32 && nw0 < W32 && i0 <= i <= |src| && |d| == |d0|
    requires var held := Dist(nread, nw0, W32) + (i - i0); held + k <= |d0|
    requires SlotAt(Bump(nw0, i - i0, W32), 0, |d0|) + k <= |d0|
    requires var slot := SlotAt(Bump(nw0, i - i0, W32), 0, |d0|);
             forall p :: 0 <= p < |d0| && !(slot <= p < slot + k) ==> d[p] == PutBytes(d0, nw0, src[i0..i])[p]
    ensures Held(d, nread, Dist(nread, nw0, W32) + (i - i0)) == Held(d0, nread, Dist(nread, nw0, W32)) + src[i0..i]
  {
    hide SlotAt, PutBytes, Held;
    var n := Dist(nread, nw0, W32);
    BumpTwice(nread, nw0, 0, i - i0);
    FullTest(nread, nw0, |d0|);
    assert Bump(nw0, i - i0, W32) == Bump(nread, n + (i - i0), W32);
    SlotFrom(nread, n + (i - i0), 0, |d0|);
    ScribbleInRoom(PutBytes(d0, nw0, src[i0..i]), d, nread, n + (i - i0), k);
    PutBytesAppends(d0, nread, n, src[i0..i]);
  }

  /** pipewrite's loop from `i0` to `i`: as many bytes are stored behind those held before. */
  predicate Stretch(d0: seq<byte>, d: seq<byte>, nread: nat, nw0: nat, nwrite: nat, src: seq<byte>, i0: nat, i: nat,
                    n: int)
  {
    && Capacity(|d0|) && nread < W32 && nw0 < W32 && i0 <= i <= |src| && (i <= n || i == i0)
    && var held := Dist(nread, nw0, W32) + (i - i0);
       && held <= |d0| && nwrite == Bump(nw0, i - i0, W32) && Dist(nread, nwrite, W32) == held
       && (nwrite == Bump(nread, |d0|, W32) <==> held == |d0|)
       && d == PutBytes(d0, nw0, src[i0..i])
  }

  lemma BumpOfDist(lo: nat, hi: nat)
    requires lo < W32 && hi < W32
    ensures Bump(lo, Dist(lo, hi, W32), W32) == hi
  {
  }

  /** A flat ring needs two calls at most: after the first it stands at the start of the buffer or is done, after the
      second
      it is done. */
  predicate TwoCalls(calls: nat, done: nat, more: bool, slot: nat) {
    && calls <= 2 && calls <= done && (calls == 0 ==> done == 0)
    && (calls == 1 ==> slot == 0 || !more) && (calls == 2 ==> !more)
  }

  lemma NoCallYet(more: bool, slot: nat)
    ensures TwoCalls(0, 0, more, slot)
  {
  }

  lemma TwoCallsLeft(calls: nat, done: nat, slot: nat)
    requires TwoCalls(calls, done, true, slot)
    ensures calls <= 1 && calls <= done && (done == 0 || slot == 0)
  {
  }

  lemma AtMostTwo(calls: nat, done: nat, more: bool, slot: nat)
    requires TwoCalls(calls, done, more, slot)
    ensures calls <= 2 && calls <= done && (calls == 0 ==> done == 0)
  {
  }

  lemma TwoCallsNext(c: nat, calls: nat, done: nat, k: nat, want: nat, room: nat, cap: nat)
    requires Capacity(cap) && c < W32 && want > 0 && 0 < room <= cap && calls <= 1
    requires TwoCalls(calls, done, true, SlotAt(c, 0, cap)) && k == Chunk(want, room, cap - SlotAt(c, 0, cap))
    ensures TwoCalls(calls + 1, done + k, k < want && k < room, SlotAt(Bump(c, k, W32), 0, cap))
  {
    hide SlotAt, Bump;
    SlotAfter(c, k, cap);
  }

  lemma SlotAfter(c: nat, k: nat, cap: nat)
    requires Capacity(cap) && c < W32 && SlotAt(c, 0, cap) + k <= cap
    ensures SlotAt(Bump(c, k, W32), 0, cap) == if SlotAt(c, 0, cap) + k == cap then 0 else SlotAt(c, 0, cap) + k
  {
    hide SlotAt, Bump;
    SlotAdvance(c, k, cap);
    SlotFrom(c, k, 0, cap);
  }

  lemma StretchStarts(d0: seq<byte>, nread: nat, nwrite: nat, src: seq<byte>, i0: nat, n: int)
    requires Capacity(|d0|) && nread < W32 && nwrite < W32 && i0 <= |src| && Dist(nread, nwrite, W32) <= |d0|
    ensures Stretch(d0, d0, nread, nwrite, nwrite, src, i0, i0, n)
  {
    hide SlotAt, PutBytes, DividesRange;
    assert src[i0..i0] == [];
    PutNothing(d0, nwrite);
    BumpTwice(nread, nwrite, 0, 0);
    FullTest(nread, nwrite, |d0|);
  }

  lemma StretchRoom(d0: seq<byte>, d: seq<byte>, nread: nat, nw0: nat, nwrite: nat, src: seq<byte>, i0: nat, i: nat,
                    n: int)
    requires Stretch(d0, d, nread, nw0, nwrite, src, i0, i, n) && i < n && nwrite != Bump(nread, |d0|, W32)
             && nwrite < W32
    ensures i0 <= i <= |src| && Dist(nread, nwrite, W32) == Dist(nread, nw0, W32) + (i - i0) < |d0|
  {
  }

  lemma StretchMore(d0: seq<byte>, d: seq<byte>, d': seq<byte>, nread: nat, nw0: nat, nwrite: nat, src: seq<byte>,
                    i0: nat, i: nat, n: int, k: nat)
    requires Stretch(d0, d, nread, nw0, nwrite, src, i0, i, n) && nwrite < W32 && i + k <= |src| && i + k <= n
    requires Dist(nread, nwrite, W32) + k <= |d0| == |d| && SlotAt(nwrite, 0, |d0|) + k <= |d0|
    requires var slot := SlotAt(nwrite, 0, |d0|); d' == d[..slot] + src[i..i + k] + d[slot + k..]
    ensures Stretch(d0, d', nread, nw0, Bump(nwrite, k, W32), src, i0, i + k, n)
  {
    hide SlotAt, PutBytes, DividesRange;
    ChunkDone(d0, nread, nw0, src, i0, i, k);
  }

  lemma StretchFails(d0: seq<byte>, d: seq<byte>, d': seq<byte>, nread: nat, nw0: nat, nwrite: nat, src: seq<byte>,
                     i0: nat, i: nat, n: int, k: nat)
    requires Stretch(d0, d, nread, nw0, nwrite, src, i0, i, n) && nwrite < W32 && |d'| == |d| == |d0|
    requires Dist(nread, nwrite, W32) + k <= |d0| && SlotAt(nwrite, 0, |d0|) + k <= |d0|
    requires var slot := SlotAt(nwrite, 0, |d0|); forall p :: 0 <= p < |d0| && !(slot <= p < slot + k) ==> d'[p] == d[p]
    ensures nwrite == Bump(nw0, i - i0, W32) && i0 <= i <= |src| && i - i0 <= |d0|
    ensures Held(d', nread, Dist(nread, nwrite, W32)) == Held(d0, nread, Dist(nread, nw0, W32)) + src[i0..i]
  {
    hide SlotAt, PutBytes, DividesRange, Held;
    ChunkFailed(d0, d', nread, nw0, src, i0, i, k);
  }

  lemma StretchEnds(d0: seq<byte>, d: seq<byte>, nread: nat, nw0: nat, nwrite: nat, src: seq<byte>, i0: nat, i: nat,
                    n: int)
    requires Stretch(d0, d, nread, nw0, nwrite, src, i0, i, n) && (i >= n || nwrite == Bump(nread, |d0|, W32))
    requires i0 <= n || i0 == 0
    ensures nwrite == Bump(nw0, i - i0, W32) && i0 <= i <= |src| && i - i0 <= |d0| && d == PutBytes(d0, nw0, src[i0..i])
    ensures i - i0 == if n <= i0 then 0 else Min(n - i0, |d0| - Dist(nread, nw0, W32))
    ensures Dist(nread, nwrite, W32) == Dist(nread, nw0, W32) + (i - i0) <= |d0| == |d|
    ensures Held(d, nread, Dist(nread, nwrite, W32)) == Held(d0, nread, Dist(nread, nw0, W32)) + src[i0..i]
  {
    hide SlotAt, PutBytes, DividesRange, Held, Bump, Dist;
    BumpOfDist(nread, nw0);
    PutBytesAppends(d0, nread, Dist(nread, nw0, W32), src[i0..i]);
  }

  /** Writing only into the room leaves the held bytes alone. */
  lemma ScribbleInRoom(d: seq<byte>, d': seq<byte>, nread: nat, n: nat, k: nat)
    requires Capacity(|d|) && |d'| == |d| && nread < W32 && n + k <= |d|
    requires SlotAt(nread, n, |d|) + k <= |d|
    requires forall p :: 0 <= p < |d| && !(SlotAt(nread, n, |d|) <= p < SlotAt(nread, n, |d|) + k) ==> d'[p] == d[p]
    ensures Held(d', nread, n) == Held(d, nread, n)
  {
    hide SlotAt;
    var slot := SlotAt(nread, n, |d|);
    forall j | 0 <= j < n ensures d'[SlotAt(nread, j, |d|)] == d[SlotAt(nread, j, |d|)] {
      var p := SlotAt(nread, j, |d|);
      if slot <= p < slot + k {
        RoomSlot(nread, n, p - slot, |d|);
        SlotsDiffer(nread, j, n + p - slot, |d|);
      }
    }
  }

  lemma RoomSlot(c: nat, n: nat, x: nat, cap: nat)
    requires Capacity(cap) && c < W32 && n <= cap && SlotAt(c, n, cap) + x < cap
    ensures SlotAt(c, n + x, cap) == SlotAt(c, n, cap) + x
  {
    hide SlotAt;
    SlotFrom(c, n, 0, cap);
    SlotAdvance(Bump(c, n, W32), x, cap);
    SlotFrom(c, n, x, cap);
  }

  /** Consuming from the front. */
  lemma HeldDrop(d: seq<byte>, nread: nat, n: nat, k: nat)
    requires Capacity(|d|) && nread < W32 && k <= n <= |d|
    ensures Held(d, Bump(nread, k, W32), n - k) == Held(d, nread, n)[k..]
  {
    hide SlotAt;
    forall j | 0 <= j < n - k ensures SlotAt(Bump(nread, k, W32), j, |d|) == SlotAt(nread, k + j, |d|) {
      SlotFrom(nread, k, j, |d|);
    }
  }

  /** A chunk up to the end of the buffer is a contiguous piece of the held bytes. */
  lemma HeldChunk(d: seq<byte>, nread: nat, n: nat, k: nat)
    requires Capacity(|d|) && nread < W32 && k <= n <= |d| && SlotAt(nread, 0, |d|) + k <= |d|
    ensures var p := SlotAt(nread, 0, |d|); d[p..p + k] == Held(d, nread, n)[..k]
  {
    hide SlotAt;
    var p := SlotAt(nread, 0, |d|);
    forall j | 0 <= j < k ensures SlotAt(nread, j, |d|) == p + j {
      SlotAdvance(nread, j, |d|);
    }
  }

  // ---------------------------------------------------------------- versions 1, 2 and 4-8

  class Pipe {
    const cap: nat
    const data: array<byte>
    var nread: nat
    var nwrite: nat

    ghost predicate Valid()
      reads this, data
    {
      Capacity(cap) && data.Length == cap && nread < W32 && nwrite < W32 && Dist(nread, nwrite, W32) <= cap
    }

    ghost function Contents(): (s: seq<byte>)
      requires Valid()
      reads this, data
    {
      Held(data[..], nread, Dist(nread, nwrite, W32))
    }

    constructor (capacity: nat)
      requires Capacity(capacity)
      ensures Valid() && Contents() == [] && cap == capacity && fresh(data)
    {
      cap := capacity;
      data := new byte[capacity];
      nread, nwrite := 0, 0;
    }

    /** copyin(&data[slot], addr + i, len): moves what is reachable, reports whether all of it was. */
    method CopyIn(slot: nat, src: seq<byte>, i: nat, len: nat) returns (ok: bool)
      requires slot + len <= data.Length && i <= |src|
      modifies data
      ensures ok == (i + len <= |src|)
      ensures ok ==> data[..] == old(data[..slot]) + src[i..i + len] + old(data[slot + len..])
      ensures forall p :: 0 <= p < data.Length && !(slot <= p < slot + len) ==> data[p] == old(data[p])
    {
      var reach := Min(len, |src| - i);
      for x := 0 to reach
        invariant forall p :: slot <= p < slot + x ==> data[p] == src[i + p - slot]
        invariant forall p :: 0 <= p < data.Length && !(slot <= p < slot + x) ==> data[p] == old(data[p])
      {
        data[slot + x] := src[i + x];
      }
      ok := i + len <= |src|;
    }

    /** Version 1: the loop of pipewrite from `i0` on, up to the next sleep or the end. */
    method WriteByByte(src: seq<byte>, n: int, i0: nat) returns (i: nat, calls: nat, faulted: bool)
      requires Valid() && i0 <= |src| && (i0 <= n || i0 == 0)
      modifies this`nwrite, data
      ensures Valid() && i0 <= i <= |src| && i - i0 <= cap
      ensures nwrite == Bump(old(nwrite), i - i0, W32)
      ensures Contents() == old(Contents()) + src[i0..i]
      ensures data[..] == PutBytes(old(data[..]), old(nwrite), src[i0..i])
      ensures !faulted ==> i - i0 == if n <= i0 then 0 else Min(n - i0, cap - |old(Contents())|)
      ensures faulted ==> i == |src| < n && |Contents()| < cap
      ensures calls == i - i0 + if faulted then 1 else 0
    {
      hide SlotAt, Held, PutBytes, Bump, Dist;
      i, calls, faulted := i0, 0, false;
      ghost var held := Dist(nread, nwrite, W32);
      assert src[i0..i0] == [];
      PutNothing(data[..], nwrite);
      BumpTwice(nread, nwrite, 0, 0);
      FullTest(nread, nwrite, cap);
      while i < n && nwrite != Bump(nread, cap, W32)
        invariant i0 <= i <= |src| && (i <= n || i == i0)
        invariant held + (i - i0) <= cap && nwrite == Bump(old(nwrite), i - i0, W32)
        invariant Dist(nread, nwrite, W32) == held + (i - i0)
        invariant nwrite == Bump(nread, cap, W32) <==> held + (i - i0) == cap
        invariant data[..] == PutBytes(old(data[..]), old(nwrite), src[i0..i])
        invariant calls == i - i0
      {
        calls := calls + 1;
        if i == |src| {
          faulted := true;
          break;
        }
        PutOneMore(old(data[..]), old(nwrite), src, i0, i);
        BumpTwice(nread, old(nwrite), i - i0, 1);
        data[SlotAt(nwrite, 0, cap)] := src[i];
        nwrite := Bump(nwrite, 1, W32);
        FullTest(nread, nwrite, cap);
        i := i + 1;
      }
      PutBytesAppends(old(data[..]), nread, held, src[i0..i]);
    }

    /** Versions 2 and 4-8: the same stretch with one copyin per contiguous chunk.  A fault comes only if the very next
        chunk reaches beyond the source. */
    method WriteBulk(src: seq<byte>, n: int, i0: nat) returns (i: nat, calls: nat, faulted: bool)
      requires Valid() && i0 <= |src| && (i0 <= n || i0 == 0)
      modifies this`nwrite, data
      ensures Valid() && i0 <= i <= |src| && i - i0 <= cap
      ensures nwrite == Bump(old(nwrite), i - i0, W32)
      ensures Contents() == old(Contents()) + src[i0..i]
      ensures !faulted ==> data[..] == PutBytes(old(data[..]), old(nwrite), src[i0..i])
      ensures !faulted ==> i - i0 == if n <= i0 then 0 else Min(n - i0, cap - |old(Contents())|)
      ensures faulted ==> |src| < n && CutShort(i0, i, n, |src|, cap - |Contents()|, SlotAt(nwrite, 0, cap), cap)
      ensures calls <= 2 && (calls == 0 <==> n <= i0 || |old(Contents())| == cap)
      ensures calls <= i - i0 + if faulted then 1 else 0
    {
      hide SlotAt, Held, PutBytes, Bump, Dist, Chunk, DividesRange, CutShort, Stretch, TwoCalls;
      i, calls, faulted := i0, 0, false;
      ghost var held, d0, nw0 := Dist(nread, nwrite, W32), data[..], nwrite;
      StretchStarts(d0, nread, nwrite, src, i0, n);
      NoCallYet(i < n && held < cap, SlotAt(nwrite, 0, cap));
      while i < n && nwrite != Bump(nread, cap, W32)
        invariant Stretch(d0, data[..], nread, nw0, nwrite, src, i0, i, n) && i0 <= i && nwrite < W32
        invariant TwoCalls(calls, i - i0, i < n && held + (i - i0) < cap, SlotAt(nwrite, 0, cap))
        decreases n - i
      {
        StretchRoom(d0, data[..], nread, nw0, nwrite, src, i0, i, n);
        var head := SlotAt(nwrite, 0, cap);
        var k := Chunk(n - i, cap - Dist(nread, nwrite, W32), cap - head);
        TwoCallsLeft(calls, i - i0, head);
        calls := calls + 1;
        ghost var d1 := data[..];
        var ok := CopyIn(head, src, i, k);
        if !ok {
          CutHere(i0, i, n, |src|, cap - Dist(nread, nwrite, W32), head, cap);
          StretchFails(d0, d1, data[..], nread, nw0, nwrite, src, i0, i, n, k);
          faulted := true;
          break;
        }
        StretchMore(d0, d1, data[..], nread, nw0, nwrite, src, i0, i, n, k);
        TwoCallsNext(nwrite, calls - 1, i - i0, k, n - i, cap - Dist(nread, nwrite, W32), cap);
        nwrite := Bump(nwrite, k, W32);
        i := i + k;
      }
      if !faulted {
        StretchEnds(d0, data[..], nread, nw0, nwrite, src, i0, i, n);
        AtMostTwo(calls, i - i0, i < n && held + (i - i0) < cap, SlotAt(nwrite, 0, cap));
      }
    }

    /** Version 1: the loop of piperead once bytes are there.  `room` user bytes are writable.  The byte
        is consumed before it is copied out, so a failing copyout loses exactly that byte. */
    method ReadByByte(n: int, room: nat) returns (i: nat, out: seq<byte>, lost: bool)
      requires Valid()
      modifies this`nread
      ensures Valid() && i == |out| <= |old(Contents())|
      ensures out == old(Contents())[..i]
      ensures lost ==> i < |old(Contents())| && Contents() == old(Contents())[i + 1..]
      ensures !lost ==> Contents() == old(Contents())[i..] && i == if n <= 0 then 0 else Min(n, |old(Contents())|)
      ensures lost <==> room < n && room < |old(Contents())|
    {
      hide SlotAt, Held, Bump, Dist;
      i, out, lost := 0, [], false;
      ghost var held, d, r0 := Dist(nread, nwrite, W32), data[..], nread;
      ghost var all := Contents();
      NoTake(r0, nwrite);
      while i < n && nread != nwrite
        invariant i == |out| <= held && nread == Bump(r0, i, W32) && i <= room && (i <= n || i == 0)
        invariant Dist(nread, nwrite, W32) == held - i && (nread == nwrite <==> i == held)
        invariant out == all[..i]
        decreases n - i
      {
        var ch := data[SlotAt(nread, 0, cap)];
        TakeMore(r0, nwrite, cap, i, 1);
        HeldDrop(d, r0, held, i);
        HeldFront(d, nread, held - i);
        nread := Bump(nread, 1, W32);
        if i >= room {
          lost := true;
          HeldDrop(d, r0, held, i + 1);
          return;
        }
        out := out + [ch];
        i := i + 1;
      }
      HeldDrop(d, r0, held, i);
    }

    /** Versions 2 and 4-8: chunked; a failing copyout consumes nothing, and the call reports -1 only if
        nothing at all was delivered. */
    method ReadBulk(n: int, room: nat) returns (r: int, out: seq<byte>, calls: nat, faulted: bool)
      requires Valid()
      modifies this`nread
      ensures Valid() && |out| <= |old(Contents())|
      ensures out == old(Contents())[..|out|] && Contents() == old(Contents())[|out|..]
      ensures r == if faulted && out == [] then -1 else |out|
      ensures !faulted ==> |out| == if n <= 0 then 0 else Min(n, |old(Contents())|)
      ensures faulted ==> room < n && room < |old(Contents())|
      ensures faulted ==> CutShort(0, |out|, n, room, |Contents()|, SlotAt(nread, 0, cap), cap)
      ensures calls <= 2
    {
      hide SlotAt, Held, Bump, Dist, Chunk, CutShort;
      out, calls, faulted := [], 0, false;
      var i: nat := 0;
      ghost var held, d, r0 := Dist(nread, nwrite, W32), data[..], nread;
      ghost var all := Contents();
      NoTake(r0, nwrite);
      while i < n && nread != nwrite
        invariant i == |out| <= held && nread == Bump(r0, i, W32) && i <= room && (i <= n || i == 0)
        invariant Dist(nread, nwrite, W32) == held - i && (nread == nwrite <==> i == held)
        invariant out == all[..i]
        invariant calls == 0 ==> i == 0
        invariant calls == 1 ==> SlotAt(nread, 0, cap) == 0 || i >= n || i == held
        invariant calls == 2 ==> i >= n || i == held
        invariant calls <= 2
        decreases n - i
      {
        var tail := SlotAt(nread, 0, cap);
        var k := Chunk(n - i, Dist(nread, nwrite, W32), cap - tail);
        calls := calls + 1;
        if i + k > room {
          CutHere(0, i, n, room, Dist(nread, nwrite, W32), tail, cap);
          faulted := true;
          break;
        }
        HeldDrop(d, r0, held, i);
        HeldChunk(d, nread, held - i, k);
        out := out + data[tail..tail + k];
        SlicesJoin(all, i, k);
        TakeMore(r0, nwrite, cap, i, k);
        SlotAdvance(nread, k, cap);
        SlotFrom(nread, k, 0, cap);
        nread := Bump(nread, k, W32);
        i := i + k;
      }
      HeldDrop(d, r0, held, i);
      r := if faulted && i == 0 then -1 else i;
    }
  }

  lemma SlicesJoin(s: seq<byte>, i: nat, k: nat)
    requires i + k <= |s|
    ensures s[..i] + s[i..][..k] == s[..i + k]
  {
  }

  lemma NoTake(nread: nat, nwrite: nat)
    requires nread < W32 && nwrite < W32
    ensures Bump(nread, 0, W32) == nread && (nread == nwrite <==> Dist(nread, nwrite, W32) == 0)
  {
  }

  /** The read counter after taking `k` more bytes: the distance shrinks and reaches 0 only at `nwrite`. */
  lemma TakeMore(nread: nat, nwrite: nat, cap: nat, done: nat, k: nat)
    requires nread < W32 && nwrite < W32 && done + k <= Dist(nread, nwrite, W32) <= cap < W32
    ensures Bump(Bump(nread, done, W32), k, W32) == Bump(nread, done + k, W32)
    ensures Dist(Bump(nread, done + k, W32), nwrite, W32) == Dist(nread, nwrite, W32) - done - k
    ensures Bump(nread, done + k, W32) == nwrite <==> done + k == Dist(nread, nwrite, W32)
  {
  }

  lemma HeldFront(d: seq<byte>, nread: nat, n: nat)
    requires |d| > 0 && n > 0
    ensures Held(d, nread, n)[0] == d[SlotAt(nread, 0, |d|)]
  {
  }

  // ---------------------------------------------------------------- version 3

  function Area(rows: nat, width: nat): nat { rows * width }

  function Row(p: nat, width: nat): nat
    requires width > 0
  {
    Quot(p, width)
  }

  function Col(p: nat, width: nat): (c: nat)
    requires width > 0
    ensures c < width
  {
    Rest(p, width)
  }

  /** Row and column of a flat position; the two-dimensional layout is the flat ring row by row. */
  lemma RowColumn(row: nat, col: nat, width: nat)
    requires col < width
    ensures Row(Area(row, width) + col, width) == row && Col(Area(row, width) + col, width) == col
  {
    DivModUnique(row * width + col, width, row, col);
  }

  lemma FlatPosition(p: nat, width: nat)
    requires width > 0
    ensures p == Area(Row(p, width), width) + Col(p, width)
  {
  }

  lemma RowInRange(p: nat, rows: nat, width: nat)
    requires width > 0 && p < Area(rows, width)
    ensures Row(p, width) < rows
  {
    var q := p / width;
    assert q * width <= p;
    assert q >= rows ==> q * width >= rows * width;
  }

  lemma RowFits(row: nat, rows: nat, width: nat)
    requires row < rows
    ensures Area(row, width) + width <= Area(rows, width)
  {
    assert (row + 1) * width <= rows * width;
  }

  /** Crossing exactly to the end of a row lands at the start of a row. */
  lemma RowEnd(p: nat, width: nat)
    requires width > 0
    ensures Col(p + (width - Col(p, width)), width) == 0
  {
    DivModUnique(p + (width - p % width), width, p / width + 1, 0);
  }

  /** Ring of `bufs` buffers of `width` bytes each. */
  class BufferRing {
    const bufs: nat
    const width: nat
    const total: nat
    const data: array2<byte>
    var nread: nat
    var nwrite: nat

    ghost predicate Shape()
    {
      && Capacity(total) && bufs > 0 && width > 0 && total == Area(bufs, width)
      && data.Length0 == bufs && data.Length1 == width
    }

    ghost predicate Valid()
      reads this
    {
      Shape() && nread < W32 && nwrite < W32 && Dist(nread, nwrite, W32) <= total
    }

    ghost function Cell(p: nat): byte
      requires Shape() && p < total
      reads data
    {
      RowInRange(p, bufs, width);
      data[Row(p, width), Col(p, width)]
    }

    /** The buffers laid end to end. */
    ghost function Flat(): (s: seq<byte>)
      requires Shape()
      reads data
      ensures |s| == total
    {
      seq(total, p requires 0 <= p < total && Shape() reads data => Cell(p))
    }

    ghost function Contents(): (s: seq<byte>)
      requires Valid()
      reads this, data
    {
      Held(Flat(), nread, Dist(nread, nwrite, W32))
    }

    constructor (n: nat, w: nat)
      requires n > 0 && w > 0 && Capacity(Area(n, w))
      ensures Valid() && Contents() == [] && bufs == n && width == w && fresh(data)
    {
      bufs, width, total := n, w, Area(n, w);
      data := new byte[n, w];
      nread, nwrite := 0, 0;
    }

    /** copyin(&data[row][off], addr + i, len) inside one row is a block copy in the flat ring. */
    method CopyIn(row: nat, off: nat, src: seq<byte>, i: nat, len: nat) returns (ok: bool)
      requires Shape() && row < bufs && off < width && off + len <= width && i <= |src|
      modifies data
      ensures ok == (i + len <= |src|)
      ensures Area(row, width) + off + len <= total
      ensures var slot := Area(row, width) + off;
              && (ok ==> Flat() == old(Flat())[..slot] + src[i..i + len] + old(Flat())[slot + len..])
              && (forall p :: 0 <= p < total && !(slot <= p < slot + len) ==> Flat()[p] == old(Flat())[p])
    {
      hide Row, Col, Area;
      var reach := Min(len, |src| - i);
      ghost var before := Flat();
      RowFits(row, bufs, width);
      for x := 0 to reach
        invariant forall r, c :: 0 <= r < bufs && 0 <= c < width ==>
          data[r, c] == if r == row && off <= c < off + x then src[i + c - off] else old(data[r, c])
      {
        data[row, off + x] := src[i + x];
      }
      ok := i + len <= |src|;
      ghost var slot := Area(row, width) + off;
      forall p | 0 <= p < total
        ensures Flat()[p] == if slot <= p < slot + reach then src[i + p - slot] else before[p]
      {
        RowInRange(p, bufs, width);
        FlatPosition(p, width);
        if slot <= p < slot + reach {
          RowColumn(row, off + (p - slot), width);
        }
      }
    }

    /** Version 3's pipewrite loop: chunks may not cross a buffer, and still the ring, the counter and
        the count are those of the byte loop. */
    method WriteRows(src: seq<byte>, n: int, i0: nat) returns (i: nat, calls: nat, faulted: bool)
      requires Valid() && i0 <= |src| && (i0 <= n || i0 == 0)
      modifies this`nwrite, data
      ensures Valid() && i0 <= i <= |src| && i - i0 <= total
      ensures nwrite == Bump(old(nwrite), i - i0, W32)
      ensures Contents() == old(Contents()) + src[i0..i]
      ensures !faulted ==> Flat() == PutBytes(old(Flat()), old(nwrite), src[i0..i])
      ensures !faulted ==> i - i0 == if n <= i0 then 0 else Min(n - i0, total - |old(Contents())|)
      ensures faulted ==> |src| < n
      ensures faulted ==> CutShort(i0, i, n, |src|, total - |Contents()|, Col(SlotAt(nwrite, 0, total), width), width)
      ensures calls <= bufs + 1 && calls <= i - i0 + if faulted then 1 else 0
    {
      hide SlotAt, Held, PutBytes, Bump, Dist, Row, Col, Area, Flat, Chunk, DividesRange, CutShort, Stretch, RowCount;
      i, calls, faulted := i0, 0, false;
      ghost var held, d0, nw0 := Dist(nread, nwrite, W32), Flat(), nwrite;
      ghost var off0 := Col(SlotAt(nwrite, 0, total), width);
      StretchStarts(d0, nread, nwrite, src, i0, n);
      NoCalls(off0, width, i0 < n && held < total);
      while i < n && nwrite != Bump(nread, total, W32)
        invariant Stretch(d0, Flat(), nread, nw0, nwrite, src, i0, i, n) && i0 <= i && nwrite < W32
        invariant RowCount(calls, i - i0, i < n
                  && held + (i - i0) < total, Col(SlotAt(nwrite, 0, total), width), off0, width)
        invariant calls <= bufs + 1 && calls <= i - i0
        decreases n - i
      {
        StretchRoom(d0, Flat(), nread, nw0, nwrite, src, i0, i, n);
        var pos := SlotAt(nwrite, 0, total);
        var row, off := Row(pos, width), Col(pos, width);
        RowInRange(pos, bufs, width);
        FlatPosition(pos, width);
        RowFits(row, bufs, width);
        var k := Chunk(n - i, total - Dist(nread, nwrite, W32), width - off);
        RowCountBound(calls, bufs, width, i - i0, off, off0, total);
        calls := calls + 1;
        ghost var d1 := Flat();
        var ok := CopyIn(row, off, src, i, k);
        if !ok {
          CutHere(i0, i, n, |src|, total - Dist(nread, nwrite, W32), off, width);
          StretchFails(d0, d1, Flat(), nread, nw0, nwrite, src, i0, i, n, k);
          faulted := true;
          break;
        }
        StretchMore(d0, d1, Flat(), nread, nw0, nwrite, src, i0, i, n, k);
        RowCountNext(nwrite, calls - 1, i - i0, k, n - i, total - Dist(nread, nwrite, W32), total, width, off0);
        nwrite := Bump(nwrite, k, W32);
        i := i + k;
      }
      if !faulted {
        StretchEnds(d0, Flat(), nread, nw0, nwrite, src, i0, i, n);
      }
    }

    /** Version 3's piperead loop. */
    method ReadRows(n: int, room: nat) returns (r: int, out: seq<byte>, calls: nat, faulted: bool)
      requires Valid()
      modifies this`nread
      ensures Valid() && |out| <= |old(Contents())|
      ensures out == old(Contents())[..|out|] && Contents() == old(Contents())[|out|..]
      ensures r == if faulted && out == [] then -1 else |out|
      ensures !faulted ==> |out| == if n <= 0 then 0 else Min(n, |old(Contents())|)
      ensures faulted ==> room < n && room < |old(Contents())|
      ensures faulted ==> CutShort(0, |out|, n, room, |Contents()|, Col(SlotAt(nread, 0, total), width), width)
      ensures calls <= bufs + 1
    {
      hide SlotAt, Held, Bump, Dist, Row, Col, Area, Flat, Chunk, DividesRange, CutShort, RowCount;
      out, calls, faulted := [], 0, false;
      var i: nat := 0;
      ghost var held, d, r0 := Dist(nread, nwrite, W32), Flat(), nread;
      ghost var all := Contents();
      ghost var off0 := Col(SlotAt(nread, 0, total), width);
      NoTake(r0, nwrite);
      NoCalls(off0, width, 0 < n && 0 < held);
      while i < n && nread != nwrite
        invariant i == |out| <= held && nread == Bump(r0, i, W32) && i <= room && (i <= n || i == 0)
        invariant Dist(nread, nwrite, W32) == held - i && (nread == nwrite <==> i == held)
        invariant out == all[..i]
        invariant RowCount(calls, i, i < n && i < held, Col(SlotAt(nread, 0, total), width), off0, width)
        invariant calls <= bufs + 1
        decreases n - i
      {
        var pos := SlotAt(nread, 0, total);
        RowInRange(pos, bufs, width);
        FlatPosition(pos, width);
        var row, off := Row(pos, width), Col(pos, width);
        RowFits(row, bufs, width);
        var k := Chunk(n - i, Dist(nread, nwrite, W32), width - off);
        RowCountBound(calls, bufs, width, i, off, off0, total);
        calls := calls + 1;
        if i + k > room {
          CutHere(0, i, n, room, Dist(nread, nwrite, W32), off, width);
          faulted := true;
          break;
        }
        HeldDrop(d, r0, held, i);
        HeldChunk(d, nread, held - i, k);
        var chunk := RowChunk(row, off, k);
        out := out + chunk;
        SlicesJoin(all, i, k);
        TakeMore(r0, nwrite, total, i, k);
        RowCountNext(nread, calls - 1, i, k, n - i, Dist(nread, nwrite, W32), total, width, off0);
        nread := Bump(nread, k, W32);
        i := i + k;
      }
      HeldDrop(d, r0, held, i);
      r := if faulted && i == 0 then -1 else i;
    }

    /** The bytes copyout moves from one row. */
    method RowChunk(row: nat, off: nat, k: nat) returns (chunk: seq<byte>)
      requires Shape() && row < bufs && off < width && off + k <= width
      ensures Area(row, width) + off + k <= total
      ensures var p := Area(row, width) + off; chunk == Flat()[p..p + k]
    {
      hide Row, Col, Area;
      RowFits(row, bufs, width);
      chunk := [];
      for x := 0 to k
        invariant chunk == Flat()[Area(row, width) + off..Area(row, width) + off + x]
      {
        RowColumn(row, off + x, width);
        chunk := chunk + [data[row, off + x]];
      }
    }
  }

  /** Where the copying stands after `calls` copies of `done` bytes in all, the first of which began at column `off0`:
      with
      more to do, at the start of a row, all rows in between being whole. */
  predicate RowCount(calls: nat, done: nat, more: bool, col: nat, off0: nat, width: nat) {
    && (calls == 0 ==> done == 0 && col == off0)
    && (calls > 0 && more ==> col == 0 && done + off0 == Area(calls, width))
  }

  lemma NoCalls(off0: nat, width: nat, more: bool)
    ensures RowCount(0, 0, more, off0, off0, width)
  {
  }

  lemma RowCountBound(calls: nat, bufs: nat, width: nat, done: nat, col: nat, off0: nat, total: nat)
    requires RowCount(calls, done, true, col, off0, width) && width > off0 && total == Area(bufs, width) && done < total
    ensures calls <= bufs && (done == 0 || col == 0) && (calls == 0 ==> done == 0)
  {
    hide Area;
    CallsBound(calls, bufs, width, done, off0, total);
  }

  lemma RowCountNext(c: nat, calls: nat, done: nat, k: nat, want: nat, room: nat, total: nat, width: nat, off0: nat)
    requires Capacity(total) && 0 < width && c < W32 && want > 0 && room > 0
    requires var col := Col(SlotAt(c, 0, total), width);
             && RowCount(calls, done, true, col, off0, width) && col < width && k == Chunk(want, room, width - col)
             && SlotAt(c, 0, total) + k <= total
    ensures RowCount(calls + 1, done + k, k < want
            && k < room, Col(SlotAt(Bump(c, k, W32), 0, total), width), off0, width)
  {
    NextRow(c, k, total, width, calls);
    if calls == 0 {
      assert Area(0, width) == 0;
    }
    hide Area, Col, SlotAt, Bump, DividesRange;
  }

  /** After the first, partial row every unfinished call moved a whole row, so `bufs` rows need at most
      `bufs + 1` calls. */
  lemma CallsBound(calls: nat, bufs: nat, width: nat, done: nat, off0: nat, total: nat)
    requires width > off0 && total == Area(bufs, width) && done < total
    requires calls > 0 ==> done + off0 == Area(calls, width)
    ensures calls <= bufs
  {
    assert calls >= bufs + 1 ==> calls * width >= (bufs + 1) * width;
  }

  /** A chunk that reaches the end of its row leaves the counter at the start of a row. */
  lemma NextRow(c: nat, k: nat, total: nat, width: nat, calls: nat)
    requires Capacity(total) && width > 0 && c < W32
    requires var off := Col(SlotAt(c, 0, total), width);
             off + k <= width && SlotAt(c, 0, total) + k <= total
    ensures var off := Col(SlotAt(c, 0, total), width);
            off + k == width ==> Col(SlotAt(Bump(c, k, W32), 0, total), width) == 0
    ensures Area(calls + 1, width) == Area(calls, width) + width
  {
    var p := SlotAt(c, 0, total);
    assert (calls + 1) * width == calls * width + width;
    SlotAdvance(c, k, total);
    SlotFrom(c, k, 0, total);
    if Col(p, width) + k == width {
      RowEnd(p, width);
      assert 0 % width == 0;
    }
  }
}
