/**
  The virtio disk's shared queue as a protocol: callers of virtio_disk_rw, the interrupt handler and
  the device, in any order.

  The driver's steps are the stretches of one hold of vdisk_lock between two moments the device can
  tell apart; the device's steps are fetching a head from the avail ring, carrying out the chain,
  writing a used entry, and publishing it.  `num` is NUM; the ring indices are uint16 and wrap.
  A caller is named by its buffer: it holds the buffer's lock, so a buffer has at most one request.
*/
module Virtqueue {
  import opened Machine

  const M := 0x1_0000

  // ---------------------------------------------------------------- descriptors

  /** Where a descriptor points: a command header, a buffer's data, or the status byte of a head. */
  datatype Addr = Null | Header(i: nat) | Data(b: nat) | Status(i: nat)

  datatype Desc = Desc(addr: Addr, more: bool, writable: bool, next: nat)

  const Blank := Desc(Null, false, false, 0)

  /** struct virtio_blk_req: the direction and the first sector. */
  datatype Command = Command(write: bool, sector: nat)

  /** The three descriptors virtio_disk_rw formats for buffer `b`. */
  function HeadDesc(i0: nat, i1: nat): Desc { Desc(Header(i0), true, false, i1) }
  function DataDesc(b: nat, write: bool, i2: nat): Desc { Desc(Data(b), true, !write, i2) }
  function StatusDesc(i0: nat): Desc { Desc(Status(i0), false, true, 0) }

  /** The lowest free descriptor, or the length when there is none. */
  function First(free: seq<bool>): (i: nat)
    ensures i <= |free| && (i < |free| ==> free[i])
    ensures forall j :: 0 <= j < i ==> !free[j]
  {
    FirstFrom(free, 0)
  }

  function FirstFrom(free: seq<bool>, from: nat): (i: nat)
    requires from <= |free|
    ensures from <= i <= |free| && (i < |free| ==> free[i])
    ensures forall j :: from <= j < i ==> !free[j]
    decreases |free| - from
  {
    if from == |free| || free[from] then from else FirstFrom(free, from + 1)
  }

  datatype Three = NoRoom | Three(i0: nat, i1: nat, i2: nat)

  /** alloc3_desc: three lowest free descriptors, or nothing. */
  function Alloc(free: seq<bool>): (r: Three)
    ensures r.Three? ==> r.i0 < r.i1 < r.i2 < |free| && free[r.i0] && free[r.i1] && free[r.i2]
  {
    var i0 := First(free);
    if i0 == |free| then NoRoom else
    var free1 := free[i0 := false];
    var i1 := First(free1);
    if i1 == |free| then NoRoom else
    var free2 := free1[i1 := false];
    var i2 := First(free2);
    if i2 == |free| then NoRoom else Three(i0, i1, i2)
  }

  function CountFree(free: seq<bool>): (n: nat)
    ensures n <= |free|
  {
    if free == [] then 0 else CountFree(free[..|free| - 1]) + if free[|free| - 1] then 1 else 0
  }

  lemma {:induction false} CountFreeUpdate(free: seq<bool>, i: nat, v: bool)
    requires i < |free|
    ensures CountFree(free[i := v]) == CountFree(free) - (if free[i] then 1 else 0) + (if v then 1 else 0)
    decreases |free|
  {
    var n := |free| - 1;
    if i == n {
      assert free[i := v][..n] == free[..n];
    } else {
      assert free[i := v][..n] == free[..n][i := v];
      CountFreeUpdate(free[..n], i, v);
    }
  }

  lemma {:induction false} CountFreeZero(free: seq<bool>)
    ensures CountFree(free) == 0 <==> First(free) == |free|
    decreases |free|
  {
    if free != [] {
      var n := |free| - 1;
      CountFreeZero(free[..n]);
      var i := First(free[..n]);
      assert i < n ==> free[i];
    }
  }

  /** alloc3_desc fails exactly when fewer than three descriptors are free. */
  lemma AllocFails(free: seq<bool>)
    ensures Alloc(free) == NoRoom <==> CountFree(free) < 3
  {
    hide CountFree;
    CountFreeZero(free);
    var i0 := First(free);
    if i0 < |free| {
      var free1 := free[i0 := false];
      CountFreeUpdate(free, i0, false);
      CountFreeZero(free1);
      var i1 := First(free1);
      if i1 < |free| {
        CountFreeUpdate(free1, i1, false);
        CountFreeZero(free1[i1 := false]);
      }
    }
  }

  datatype Freed = Freed(free: seq<bool>, desc: seq<Desc>, ok: bool)

  /** free_chain: `ok` is false when free_desc panics. */
  function FreeChain(free: seq<bool>, desc: seq<Desc>, i: nat): (r: Freed)
    requires |free| == |desc|
    ensures |r.free| == |r.desc| == |free|
    decreases |free| - CountFree(free)
  {
    if i >= |free| || free[i] then Freed(free, desc, false)
    else
      CountFreeUpdate(free, i, true);
      if desc[i].more then FreeChain(free[i := true], desc[i := Blank], desc[i].next)
      else Freed(free[i := true], desc[i := Blank], true)
  }

  function Give(free: seq<bool>, i0: nat, i1: nat, i2: nat, v: bool): (r: seq<bool>)
    requires i0 < |free| && i1 < |free| && i2 < |free|
    ensures |r| == |free|
    ensures forall i :: 0 <= i < |free| ==> r[i] == if i == i0 || i == i1 || i == i2 then v else free[i]
  {
    free[i0 := v][i1 := v][i2 := v]
  }

  /** On a well formed chain, free_chain frees exactly its three descriptors and does not panic. */
  lemma FreeChainFreesThree(free: seq<bool>, desc: seq<Desc>, i0: nat, i1: nat, i2: nat)
    requires |free| == |desc| && i0 < |free| && i1 < |free| && i2 < |free|
    requires i0 != i1 && i1 != i2 && i0 != i2 && !free[i0] && !free[i1] && !free[i2]
    requires desc[i0].more && desc[i0].next == i1 && desc[i1].more && desc[i1].next == i2 && !desc[i2].more
    ensures FreeChain(free, desc, i0) == Freed(Give(free, i0, i1, i2, true),
            desc[i0 := Blank][i1 := Blank][i2 := Blank], true)
  {
    var f1, d1 := free[i0 := true], desc[i0 := Blank];
    var f2, d2 := f1[i1 := true], d1[i1 := Blank];
    assert FreeChain(f2, d2, i2) == Freed(f2[i2 := true], d2[i2 := Blank], true);
    assert FreeChain(f1, d1, i1) == FreeChain(f2, d2, i2);
    assert FreeChain(free, desc, i0) == FreeChain(f1, d1, i1);
  }

  lemma CountGive(free: seq<bool>, i0: nat, i1: nat, i2: nat, v: bool)
    requires i0 < |free| && i1 < |free| && i2 < |free| && i0 != i1 && i1 != i2 && i0 != i2
    requires free[i0] == free[i1] == free[i2] == !v
    ensures CountFree(Give(free, i0, i1, i2, v)) == if v then CountFree(free) + 3 else CountFree(free) - 3
  {
    hide CountFree;
    CountFreeUpdate(free, i0, v);
    CountFreeUpdate(free[i0 := v], i1, v);
    CountFreeUpdate(free[i0 := v][i1 := v], i2, v);
  }

  // ---------------------------------------------------------------- the protocol's state

  /** What the device did for a request: which buffer, which sector, which direction. */
  datatype Transfer = Transfer(b: nat, sector: nat, write: bool)

  datatype Owner = Nobody | Request(b: nat)

  /** How far the chain starting at a descriptor has come; `k` counts ring entries from the start of
      time.  The device keeps Fetched, Moved and Posting itself, the rest is history.  A chain that failed is `Moved`
      as well, with its status byte left nonzero. */
  datatype Stage = Off | Held | Offered(k: nat) | Fetched | Moved | Posting | Posted(k: nat) | Cleared

  datatype Pc = Built | InSlot | Published | Asleep | Awake

  /** A caller of virtio_disk_rw with its three descriptors; `moves` and `clears` record what happened
      to its buffer since the call. */
  datatype Req =
    | Idle
    | Starved                       // asleep on &disk.free[0]
    | Live(pc: Pc, sector: nat, write: bool, i0: nat, i1: nat, i2: nat, moves: seq<Transfer>, clears: nat)

  datatype Lock = Unlocked | Handler | Caller(b: nat)

  datatype Entry = NoEntry | Entry(h: nat)

  /** `disk[b]` is b->disk, `info` and `status` the two fields of disk.info, `owner` and `stage` history.
      `offered`, `fetched`, `posted` and `seen` count ring entries; the uint16 indices avail->idx, the
      device's own, used->idx and used_idx are their low 16 bits. */
  datatype State = State(
    num: nat, free: seq<bool>, desc: seq<Desc>, ops: seq<Command>, info: seq<Owner>, status: seq<bool>,
    avail: seq<nat>, used: seq<nat>, offered: nat, fetched: nat, posted: nat, seen: nat, posting: Entry,
    disk: seq<bool>, reqs: seq<Req>, owner: seq<Owner>, stage: seq<Stage>, lock: Lock, panicked: bool)

  /** A counter as its uint16 index. */
  function Low(k: nat): (i: nat)
    ensures i < M
  {
    k % M
  }

  /** idx % NUM, computed from the 16-bit index. */
  function Slot(k: nat, num: nat): (p: nat)
    requires num > 0
    ensures p < num
  {
    Low(k) % num
  }

  datatype Step =
    | Start(b: nat, sector: nat, write: bool)   // up to and including disk.info[idx[0]].b = b
    | PutRing(b: nat)                            // avail->ring[avail->idx % NUM] = idx[0]
    | BumpAvail(b: nat)                          // avail->idx += 1
    | Await(b: nat)                              // test b->disk: sleep, or free the chain and return
    | Enter | Take | Exit                        // virtio_disk_intr: acquire, one used entry, release
    | Kill(b: nat)                               // kkill wakes a sleeper
    | Fetch | Move(h: nat) | Fail(h: nat) | Post(h: nat) | BumpUsed   // the device; Fail reports an error

  predicate Sizes(s: State) {
    && s.num > 0 && M % s.num == 0
    && |s.free| == |s.desc| == |s.ops| == |s.info| == |s.status| == |s.avail| == |s.used| == s.num
    && |s.owner| == |s.stage| == s.num && |s.disk| == |s.reqs|
  }

  predicate HasPc(s: State, b: nat, pc: Pc) {
    b < |s.reqs| && s.reqs[b].Live? && s.reqs[b].pc == pc
  }

  predicate Enabled(s: State, step: Step) {
    && Sizes(s) && !s.panicked
    && match step
       case Start(b, sector, write) => s.lock.Unlocked? && b < |s.reqs| && s.reqs[b].Idle?
       case PutRing(b) => s.lock == Caller(b) && HasPc(s, b, Built) && s.reqs[b].i0 < s.num
       case BumpAvail(b) => s.lock == Caller(b) && HasPc(s, b, InSlot) && s.reqs[b].i0 < s.num
       case Await(b) =>
         && ((s.lock == Caller(b) && HasPc(s, b, Published)) || (s.lock.Unlocked? && HasPc(s, b, Awake)))
         && s.reqs[b].i0 < s.num
       case Enter => s.lock.Unlocked?
       case Take => s.lock.Handler? && Low(s.seen) != Low(s.posted)
       case Exit => s.lock.Handler? && Low(s.seen) == Low(s.posted)
       case Kill(b) => b < |s.reqs| && (s.reqs[b].Starved? || HasPc(s, b, Asleep))
       case Fetch => Low(s.fetched) != Low(s.offered)
       case Move(h) => h < s.num && s.stage[h].Fetched?
       case Fail(h) => h < s.num && s.stage[h].Fetched?
       case Post(h) => h < s.num && s.stage[h].Moved? && s.posting.NoEntry?
       case BumpUsed => s.posting.Entry? && s.posting.h < s.num
  }

  /** The callers once every process asleep on &disk.free[0] is woken; it will call alloc3_desc again. */
  function Fed(reqs: seq<Req>): (r: seq<Req>)
    ensures |r| == |reqs| && forall b :: 0 <= b < |reqs| ==> r[b] == if reqs[b].Starved? then Idle else reqs[b]
  {
    seq(|reqs|, b requires 0 <= b < |reqs| => if reqs[b].Starved? then Idle else reqs[b])
  }

  function Set3<T>(xs: seq<T>, i0: nat, i1: nat, i2: nat, x0: T, x1: T, x2: T): (r: seq<T>)
    requires i0 < |xs| && i1 < |xs| && i2 < |xs|
    ensures |r| == |xs|
    ensures forall i :: 0 <= i < |xs| ==> r[i] == if i == i2 then x2 else if i == i1 then x1 else if i == i0 then x0
            else xs[i]
  {
    xs[i0 := x0][i1 := x1][i2 := x2]
  }

  function Submit(s: State, b: nat, sector: nat, write: bool, t: Three): (r: State)
    requires Sizes(s) && b < |s.reqs| && t.Three? && t.i0 < s.num && t.i1 < s.num && t.i2 < s.num
  {
    s.(free := Give(s.free, t.i0, t.i1, t.i2, false),
       desc := Set3(s.desc, t.i0, t.i1, t.i2, HeadDesc(t.i0, t.i1), DataDesc(b, write, t.i2), StatusDesc(t.i0)),
       ops := s.ops[t.i0 := Command(write, sector)],
       info := s.info[t.i0 := Request(b)],
       status := s.status[t.i0 := false],
       disk := s.disk[b := true],
       reqs := s.reqs[b := Live(Built, sector, write, t.i0, t.i1, t.i2, [], 0)],
       owner := Set3(s.owner, t.i0, t.i1, t.i2, Request(b), Request(b), Request(b)),
       stage := s.stage[t.i0 := Held],
       lock := Caller(b))
  }

  function Finish(s: State, b: nat): (r: State)
    requires Sizes(s) && b < |s.reqs| && s.reqs[b].Live? && s.reqs[b].i0 < s.num
  {
    var q := s.reqs[b];
    var f := FreeChain(s.free, s.desc, q.i0);
    if !f.ok || q.i1 >= s.num || q.i2 >= s.num then s.(panicked := true)
    else s.(
      info := s.info[q.i0 := Nobody],
      free := f.free,
      desc := f.desc,
      reqs := Fed(s.reqs[b := Idle]),
      owner := Set3(s.owner, q.i0, q.i1, q.i2, Nobody, Nobody, Nobody),
      stage := s.stage[q.i0 := Off],
      lock := Unlocked)
  }

  /** What the device reads when it follows the chain from `h`; None when the chain is malformed. */
  function Follow(s: State, h: nat): Option<(Transfer, nat)>
    requires Sizes(s) && h < s.num
  {
    var d0 := s.desc[h];
    if !(d0.more && d0.addr.Header? && d0.addr.i < s.num && d0.next < s.num && !d0.writable) then None else
    var d1, cmd := s.desc[d0.next], s.ops[d0.addr.i];
    if !(d1.more && d1.addr.Data? && d1.addr.b < |s.reqs| && d1.next < s.num && d1.writable == !cmd.write)
      then None else
    var d2 := s.desc[d1.next];
    if !(!d2.more && d2.addr.Status? && d2.addr.i < s.num && d2.writable) then None else
    Some((Transfer(d1.addr.b, cmd.sector, cmd.write), d2.addr.i))
  }

  function WithMove(q: Req, t: Transfer): Req {
    if q.Live? then q.(moves := q.moves + [t]) else q
  }

  /** The request after b->disk = 0 and wakeup(b). */
  function WithClear(q: Req): Req {
    if q.Live? then q.(clears := q.clears + 1, pc := if q.pc.Asleep? then Awake else q.pc) else q
  }

  function Apply(s: State, step: Step): State
    requires Enabled(s, step)
  {
    match step
    case Start(b, sector, write) =>
      var t := Alloc(s.free);
      if t.NoRoom? then s.(reqs := s.reqs[b := Starved]) else Submit(s, b, sector, write, t)
    case PutRing(b) =>
      s.(avail := s.avail[Slot(s.offered, s.num) := s.reqs[b].i0], reqs := s.reqs[b := s.reqs[b].(pc := InSlot)])
    case BumpAvail(b) =>
      s.(offered := s.offered + 1, stage := s.stage[s.reqs[b].i0 := Offered(s.offered)],
         reqs := s.reqs[b := s.reqs[b].(pc := Published)])
    case Await(b) =>
      if s.disk[b] then s.(reqs := s.reqs[b := s.reqs[b].(pc := Asleep)], lock := Unlocked) else Finish(s, b)
    case Enter => s.(lock := Handler)
    case Take =>
      var id := s.used[Slot(s.seen, s.num)];
      if id >= s.num || !s.status[id] || s.info[id].Nobody? || s.info[id].b >= |s.reqs| then s.(panicked := true)
      else
        var b := s.info[id].b;
        s.(disk := s.disk[b := false], reqs := s.reqs[b := WithClear(s.reqs[b])],
           seen := s.seen + 1, stage := s.stage[id := Cleared])
    case Exit => s.(lock := Unlocked)
    case Kill(b) => s.(reqs := s.reqs[b := if s.reqs[b].Starved? then Idle else s.reqs[b].(pc := Awake)])
    case Fetch =>
      var h := s.avail[Slot(s.fetched, s.num)];
      if h >= s.num then s.(panicked := true) else s.(fetched := s.fetched + 1, stage := s.stage[h := Fetched])
    case Move(h) =>
      var f := Follow(s, h);
      if f.None? then s.(panicked := true)
      else
        var t := f.value.0;
        s.(status := s.status[f.value.1 := true], stage := s.stage[h := Moved],
           reqs := s.reqs[t.b := WithMove(s.reqs[t.b], t)])
    case Fail(h) =>
      if Follow(s, h).None? then s.(panicked := true) else s.(stage := s.stage[h := Moved])
    case Post(h) =>
      s.(used := s.used[Slot(s.posted, s.num) := h], posting := Entry(h), stage := s.stage[h := Posting])
    case BumpUsed =>
      s.(posted := s.posted + 1, posting := NoEntry, stage := s.stage[s.posting.h := Posted(s.posted)])
  }

  predicate Initial(s: State) {
    && Sizes(s) && !s.panicked && s.lock.Unlocked? && s.posting.NoEntry?
    && s.offered == s.fetched == s.posted == s.seen == 0
    && (forall i :: 0 <= i < s.num ==> s.free[i] && s.desc[i] == Blank && s.owner[i].Nobody? && s.stage[i].Off?)
    && (forall b :: 0 <= b < |s.reqs| ==> s.reqs[b].Idle?)
  }

  ghost predicate Run(s: State, steps: seq<Step>, t: State)
    decreases |steps|
  {
    if steps == [] then s == t
    else Enabled(s, steps[0]) && Run(Apply(s, steps[0]), steps[1..], t)
  }

  // ---------------------------------------------------------------- the invariant

  predicate Done(g: Stage) {
    g.Moved? || g.Posting? || g.Posted? || g.Cleared?
  }

  /** What the request for `b` has seen so far, given how far its chain has come. */
  predicate Progress(g: Stage, q: Req, b: nat, status: bool, disk: bool)
    requires q.Live?
  {
    && !g.Off? && (g.Held? <==> q.pc.Built? || q.pc.InSlot?)
    && status == (q.moves != [])
    && (q.moves == [] || q.moves == [Transfer(b, q.sector, q.write)])
    && (!Done(g) ==> q.moves == []) && (g.Cleared? ==> q.moves != [])
    && disk == !g.Cleared? && q.clears == (if g.Cleared? then 1 else 0)
    && (q.pc.Asleep? ==> disk)
  }

  /** A live request's three descriptors are its own and formatted as a chain for its buffer. */
  predicate ChainOk(s: State, b: nat, q: Req)
    requires Sizes(s) && q.Live?
  {
    && q.i0 < s.num && q.i1 < s.num && q.i2 < s.num && q.i0 != q.i1 && q.i1 != q.i2 && q.i0 != q.i2
    && s.owner[q.i0] == s.owner[q.i1] == s.owner[q.i2] == Request(b)
    && s.desc[q.i0] == HeadDesc(q.i0, q.i1)
    && s.desc[q.i1] == DataDesc(b, q.write, q.i2)
    && s.desc[q.i2] == StatusDesc(q.i0)
    && s.ops[q.i0] == Command(q.write, q.sector)
    && s.info[q.i0] == Request(b)
  }

  predicate HoldsLock(q: Req) {
    q.Live? && (q.pc.Built? || q.pc.InSlot? || q.pc.Published?)
  }

  predicate ReqOk(s: State, b: nat)
    requires Sizes(s) && b < |s.reqs|
  {
    var q := s.reqs[b];
    && (s.lock == Caller(b) <==> HoldsLock(q))
    && (q.Starved? ==> Alloc(s.free).NoRoom?)
    && (q.Live? ==>
          && ChainOk(s, b, q) && Progress(s.stage[q.i0], q, b, s.status[q.i0], s.disk[b])
          && (q.pc.InSlot? ==> s.avail[Slot(s.offered, s.num)] == q.i0))
  }

  /** A descriptor is free and blank, or belongs to a live request. */
  predicate DescOk(s: State, i: nat)
    requires Sizes(s) && i < s.num
  {
    && (s.free[i] <==> s.owner[i].Nobody?)
    && (s.free[i] ==> s.desc[i] == Blank && s.stage[i].Off?)
    && (s.owner[i].Request? ==>
          && s.owner[i].b < |s.reqs|
          && var q := s.reqs[s.owner[i].b];
             q.Live? && (i == q.i0 || i == q.i1 || i == q.i2) && (!s.stage[i].Off? ==> i == q.i0))
  }

  /** The ring entry a head's stage speaks of is really there and not yet consumed. */
  predicate PlaceOk(s: State, h: nat)
    requires Sizes(s) && h < s.num
  {
    match s.stage[h]
    case Offered(k) => s.fetched <= k < s.offered && s.avail[Slot(k, s.num)] == h
    case Posted(k) => s.seen <= k < s.posted && s.used[Slot(k, s.num)] == h
    case Posting => s.posting == Entry(h)
    case _ => true
  }

  /** Unconsumed entry `k` of each ring names the head that was put there as the `k`th. */
  predicate AvailOk(s: State, k: nat)
    requires Sizes(s)
  {
    s.fetched <= k < s.offered ==>
      s.avail[Slot(k, s.num)] < s.num && s.stage[s.avail[Slot(k, s.num)]] == Offered(k)
  }

  predicate UsedOk(s: State, k: nat)
    requires Sizes(s)
  {
    s.seen <= k < s.posted ==>
      s.used[Slot(k, s.num)] < s.num && s.stage[s.used[Slot(k, s.num)]] == Posted(k)
  }

  predicate Counters(s: State)
    requires Sizes(s)
  {
    && s.fetched <= s.offered && s.seen <= s.posted && !s.panicked
    && (s.posting.Entry? ==>
          && s.posting.h < s.num && s.stage[s.posting.h].Posting?
          && s.used[Slot(s.posted, s.num)] == s.posting.h)
    && (s.lock.Caller? ==> s.lock.b < |s.reqs|)
  }

  function CountLive(reqs: seq<Req>): nat {
    if reqs == [] then 0 else CountLive(reqs[..|reqs| - 1]) + if reqs[|reqs| - 1].Live? then 1 else 0
  }

  ghost predicate Inv(s: State) {
    && Sizes(s) && Counters(s)
    && (forall b: nat :: b < |s.reqs| ==> ReqOk(s, b))
    && (forall i: nat :: i < s.num ==> DescOk(s, i) && PlaceOk(s, i))
    && (forall k: nat :: AvailOk(s, k) && UsedOk(s, k))
    && CountFree(s.free) + 3 * CountLive(s.reqs) == s.num
  }

  // ---------------------------------------------------------------- rings

  /** The 16-bit index reaches the same slot as the count, because NUM divides 2^16. */
  lemma SlotIsCount(k: nat, num: nat)
    requires num > 0 && M % num == 0
    ensures Slot(k, num) == k % num
  {
    var w := M / num;
    assert M == w * num;
    var q, r := k / M, k % M;
    assert k == r + (q * w) * num by {
      assert q * M == q * (w * num);
    }
    ModShift(r, q * w, num);
  }

  lemma SlotsApart(a: nat, b: nat, num: nat)
    requires num > 0 && M % num == 0 && a < b < a + num
    ensures Slot(a, num) != Slot(b, num)
  {
    SlotIsCount(a, num);
    SlotIsCount(b, num);
    if a % num == b % num {
      SlotInjective(a, b, num);
    }
  }

  /** The test idx == idx' is emptiness as long as fewer than 2^16 entries are outstanding. */
  lemma LowIsExact(a: nat, b: nat)
    requires a <= b < a + M
    ensures Low(a) == Low(b) <==> a == b
  {
    if Low(a) == Low(b) {
      SlotInjective(a, b, M);
    }
  }

  /** The heads named by entries `lo..hi` of a ring. */
  ghost function Heads(ring: seq<nat>, lo: nat, hi: nat, num: nat): set<nat>
    requires num > 0 && |ring| == num && lo <= hi
  {
    if lo == hi then {} else Heads(ring, lo, hi - 1, num) + {ring[Slot(hi - 1, num)]}
  }

  /** `place[h]` is the entry number of head `h`: the entries name distinct heads, and never `x`. */
  lemma {:induction false} HeadsCount(ring: seq<nat>, place: seq<int>, lo: nat, hi: nat, num: nat, x: nat)
    requires num > 0 && |ring| == |place| == num && lo <= hi && x < num && place[x] < lo
    requires forall k: nat :: lo <= k < hi ==> ring[Slot(k, num)] < num && place[ring[Slot(k, num)]] == k
    ensures |Heads(ring, lo, hi, num)| == hi - lo
    ensures forall h :: h in Heads(ring, lo, hi, num) ==> h < num && h != x && lo <= place[h] < hi
    decreases hi
  {
    hide Slot;
    if lo < hi {
      HeadsCount(ring, place, lo, hi - 1, num, x);
    }
  }

  lemma {:induction false} BelowCount(n: nat, heads: set<nat>)
    requires forall h :: h in heads ==> h < n
    ensures |heads| <= n
  {
    if n == 0 {
      assert heads == {};
    } else {
      BelowCount(n - 1, heads - {n - 1});
      assert |heads| <= |heads - {n - 1}| + 1;
    }
  }

  lemma WindowFits(ring: seq<nat>, place: seq<int>, lo: nat, hi: nat, num: nat, x: nat)
    requires num > 0 && |ring| == |place| == num && lo <= hi && x < num && place[x] < lo
    requires forall k: nat :: lo <= k < hi ==> ring[Slot(k, num)] < num && place[ring[Slot(k, num)]] == k
    ensures hi - lo < num
  {
    hide Slot, Heads;
    var heads := Heads(ring, lo, hi, num);
    HeadsCount(ring, place, lo, hi, num, x);
    BelowCount(num, heads + {x});
  }

  function OfferedAt(stage: seq<Stage>): (r: seq<int>)
    ensures |r| == |stage| && forall h :: 0 <= h < |r| ==> r[h] == if stage[h].Offered? then stage[h].k else -1
  {
    seq(|stage|, h requires 0 <= h < |stage| => if stage[h].Offered? then stage[h].k else -1)
  }

  function PostedAt(stage: seq<Stage>): (r: seq<int>)
    ensures |r| == |stage| && forall h :: 0 <= h < |r| ==> r[h] == if stage[h].Posted? then stage[h].k else -1
  {
    seq(|stage|, h requires 0 <= h < |stage| => if stage[h].Posted? then stage[h].k else -1)
  }

  /** A descriptor that is not the head of any chain in progress, if any chain is in progress. */
  lemma SecondIsOff(s: State, h: nat)
    requires Inv(s) && h < s.num && !s.stage[h].Off?
    ensures exists x: nat :: x < s.num && s.stage[x].Off?
  {
    assert DescOk(s, h);
    var b := s.owner[h].b;
    assert ReqOk(s, b);
    assert DescOk(s, s.reqs[b].i1);
    assert s.stage[s.reqs[b].i1].Off?;
  }

  /** Each ring always has a spare slot beside its unconsumed entries. */
  lemma RoomInRings(s: State)
    requires Inv(s)
    ensures s.offered - s.fetched < s.num && s.posted - s.seen < s.num
  {
    hide Slot, DescOk, ReqOk, CountFree, CountLive;
    if s.fetched < s.offered {
      assert AvailOk(s, s.fetched);
      SecondIsOff(s, s.avail[Slot(s.fetched, s.num)]);
      var x: nat :| x < s.num && s.stage[x].Off?;
      forall k: nat | s.fetched <= k < s.offered
        ensures s.avail[Slot(k, s.num)] < s.num && OfferedAt(s.stage)[s.avail[Slot(k, s.num)]] == k
      {
        assert AvailOk(s, k);
      }
      WindowFits(s.avail, OfferedAt(s.stage), s.fetched, s.offered, s.num, x);
    }
    if s.seen < s.posted {
      assert UsedOk(s, s.seen);
      SecondIsOff(s, s.used[Slot(s.seen, s.num)]);
      var x: nat :| x < s.num && s.stage[x].Off?;
      forall k: nat | s.seen <= k < s.posted
        ensures s.used[Slot(k, s.num)] < s.num && PostedAt(s.stage)[s.used[Slot(k, s.num)]] == k
      {
        assert UsedOk(s, k);
      }
      WindowFits(s.used, PostedAt(s.stage), s.seen, s.posted, s.num, x);
    }
  }

  // ---------------------------------------------------------------- every step keeps the invariant

  lemma {:induction false} CountLiveUpdate(reqs: seq<Req>, b: nat, q: Req)
    requires b < |reqs|
    ensures CountLive(reqs[b := q]) == CountLive(reqs) - (if reqs[b].Live? then 1 else 0) + (if q.Live? then 1 else 0)
    decreases |reqs|
  {
    var n := |reqs| - 1;
    if b == n {
      assert reqs[b := q][..n] == reqs[..n];
    } else {
      assert reqs[b := q][..n] == reqs[..n][b := q];
      CountLiveUpdate(reqs[..n], b, q);
    }
  }

  lemma {:induction false} CountLiveFed(reqs: seq<Req>)
    ensures CountLive(Fed(reqs)) == CountLive(reqs)
    decreases |reqs|
  {
    if reqs != [] {
      var n := |reqs| - 1;
      assert Fed(reqs)[..n] == Fed(reqs[..n]);
      CountLiveFed(reqs[..n]);
    }
  }

  lemma StartKeeps(s: State, b: nat, sector: nat, write: bool)
    requires Inv(s) && Enabled(s, Start(b, sector, write))
    ensures Inv(Apply(s, Start(b, sector, write)))
  {
    hide CountFree, CountLive, Slot, Low, Alloc;
    var t := Alloc(s.free);
    if t.NoRoom? {
      var s' := s.(reqs := s.reqs[b := Starved]);
      CountLiveUpdate(s.reqs, b, Starved);
      forall c: nat | c < |s.reqs| ensures ReqOk(s', c) { assert ReqOk(s, c); }
      forall i: nat | i < s.num ensures DescOk(s', i) && PlaceOk(s', i) { assert DescOk(s, i) && PlaceOk(s, i); }
      forall k: nat ensures AvailOk(s', k) && UsedOk(s', k) { assert AvailOk(s, k) && UsedOk(s, k); }
    } else {
      SubmitKeeps(s, b, sector, write, t);
    }
  }

  lemma SubmitKeeps(s: State, b: nat, sector: nat, write: bool, t: Three)
    requires Inv(s) && b < |s.reqs| && s.reqs[b].Idle? && s.lock.Unlocked?
    requires t.Three? && t.i0 < t.i1 < t.i2 < s.num && s.free[t.i0] && s.free[t.i1] && s.free[t.i2]
    requires Alloc(s.free) == t
    ensures Inv(Submit(s, b, sector, write, t))
  {
    hide CountFree, CountLive, Slot, Low, Alloc;
    var s' := Submit(s, b, sector, write, t);
    CountLiveUpdate(s.reqs, b, s'.reqs[b]);
    CountGive(s.free, t.i0, t.i1, t.i2, false);
    assert DescOk(s, t.i0) && DescOk(s, t.i1) && DescOk(s, t.i2);
    forall c: nat | c < |s.reqs| ensures ReqOk(s', c) {
      assert ReqOk(s, c);
    }
    forall i: nat | i < s.num ensures DescOk(s', i) && PlaceOk(s', i) {
      assert DescOk(s, i) && PlaceOk(s, i);
    }
    forall k: nat ensures AvailOk(s', k) && UsedOk(s', k) {
      assert AvailOk(s, k) && UsedOk(s, k);
    }
  }

  lemma PutRingKeeps(s: State, b: nat)
    requires Inv(s) && Enabled(s, PutRing(b))
    ensures Inv(Apply(s, PutRing(b)))
  {
    hide CountFree, CountLive, Slot, Low, Alloc;
    var s' := Apply(s, PutRing(b));
    CountLiveUpdate(s.reqs, b, s'.reqs[b]);
    RoomInRings(s);
    forall k: nat | s.fetched <= k < s.offered ensures s'.avail[Slot(k, s.num)] == s.avail[Slot(k, s.num)] {
      SlotsApart(k, s.offered, s.num);
    }
    forall c: nat | c < |s.reqs| ensures ReqOk(s', c) { assert ReqOk(s, c) && ReqOk(s, b); }
    forall i: nat | i < s.num ensures DescOk(s', i) && PlaceOk(s', i) { assert DescOk(s, i) && PlaceOk(s, i); }
    forall k: nat ensures AvailOk(s', k) && UsedOk(s', k) { assert AvailOk(s, k) && UsedOk(s, k); }
  }

  lemma BumpAvailKeeps(s: State, b: nat)
    requires Inv(s) && Enabled(s, BumpAvail(b))
    ensures Inv(Apply(s, BumpAvail(b)))
  {
    hide CountFree, CountLive, Slot, Low, Alloc;
    var s' := Apply(s, BumpAvail(b));
    assert ReqOk(s, b);
    CountLiveUpdate(s.reqs, b, s'.reqs[b]);
    forall c: nat | c < |s.reqs| ensures ReqOk(s', c) { assert ReqOk(s, c); }
    forall i: nat | i < s.num ensures DescOk(s', i) && PlaceOk(s', i) { assert DescOk(s, i) && PlaceOk(s, i); }
    forall k: nat ensures AvailOk(s', k) && UsedOk(s', k) { assert AvailOk(s, k) && UsedOk(s, k); }
  }

  lemma AwaitKeeps(s: State, b: nat)
    requires Inv(s) && Enabled(s, Await(b))
    ensures Inv(Apply(s, Await(b)))
  {
    hide CountFree, CountLive, Slot, Low, Alloc, Finish;
    if s.disk[b] {
      var s' := Apply(s, Await(b));
      CountLiveUpdate(s.reqs, b, s'.reqs[b]);
      forall c: nat | c < |s.reqs| ensures ReqOk(s', c) { assert ReqOk(s, c); }
      forall i: nat | i < s.num ensures DescOk(s', i) && PlaceOk(s', i) { assert DescOk(s, i) && PlaceOk(s, i); }
      forall k: nat ensures AvailOk(s', k) && UsedOk(s', k) { assert AvailOk(s, k) && UsedOk(s, k); }
    } else {
      FinishKeeps(s, b);
    }
  }

  /** The state after virtio_disk_rw returned, when all goes well. */
  ghost function Released(s: State, b: nat): (r: State)
    requires Sizes(s) && b < |s.reqs| && s.reqs[b].Live? && ChainOk(s, b, s.reqs[b])
  {
    var q := s.reqs[b];
    s.(free := Give(s.free, q.i0, q.i1, q.i2, true),
       desc := Set3(s.desc, q.i0, q.i1, q.i2, Blank, Blank, Blank),
       info := s.info[q.i0 := Nobody],
       reqs := Fed(s.reqs[b := Idle]),
       owner := Set3(s.owner, q.i0, q.i1, q.i2, Nobody, Nobody, Nobody),
       stage := s.stage[q.i0 := Off],
       lock := Unlocked)
  }

  /** free_desc does not panic, and exactly the caller's three descriptors come back. */
  lemma FinishReleases(s: State, b: nat)
    requires Inv(s) && b < |s.reqs| && s.reqs[b].Live?
    ensures ChainOk(s, b, s.reqs[b]) && Finish(s, b) == Released(s, b)
  {
    hide CountFree, CountLive, Slot, Low, Alloc, FreeChain, First, Progress, AvailOk, UsedOk, PlaceOk;
    var q := s.reqs[b];
    assert ReqOk(s, b);
    assert DescOk(s, q.i0) && DescOk(s, q.i1) && DescOk(s, q.i2);
    FreeChainFreesThree(s.free, s.desc, q.i0, q.i1, q.i2);
  }

  lemma ReleasedReqs(s: State, b: nat, c: nat)
    requires Sizes(s) && b < |s.reqs| && s.reqs[b].Live? && ChainOk(s, b, s.reqs[b])
    requires c < |s.reqs| && ReqOk(s, c) && (s.lock.Unlocked? || s.lock == Caller(b))
    ensures ReqOk(Released(s, b), c)
  {
    hide Slot, Alloc, Progress;
  }

  lemma ReleasedDescs(s: State, b: nat, i: nat)
    requires Sizes(s) && b < |s.reqs| && s.reqs[b].Live? && ChainOk(s, b, s.reqs[b])
    requires i < s.num && DescOk(s, i) && PlaceOk(s, i)
    ensures DescOk(Released(s, b), i) && PlaceOk(Released(s, b), i)
  {
    hide Slot;
  }

  lemma FinishKeeps(s: State, b: nat)
    requires Inv(s) && Enabled(s, Await(b)) && !s.disk[b]
    ensures Inv(Finish(s, b))
  {
    hide CountFree, CountLive, Slot, Low, Alloc, First, Finish;
    FinishReleases(s, b);
    var s', q := Released(s, b), s.reqs[b];
    assert ReqOk(s, b) && s.stage[q.i0].Cleared?;
    assert DescOk(s, q.i0) && DescOk(s, q.i1) && DescOk(s, q.i2);
    CountGive(s.free, q.i0, q.i1, q.i2, true);
    CountLiveUpdate(s.reqs, b, Idle);
    CountLiveFed(s.reqs[b := Idle]);
    forall c: nat | c < |s.reqs| ensures ReqOk(s', c) { ReleasedReqs(s, b, c); }
    forall i: nat | i < s.num ensures DescOk(s', i) && PlaceOk(s', i) { ReleasedDescs(s, b, i); }
    hide ReqOk, DescOk, PlaceOk, ChainOk;
    forall k: nat ensures AvailOk(s', k) && UsedOk(s', k) { assert AvailOk(s, k) && UsedOk(s, k); }
  }

  /** The next used entry belongs to a live request whose flag is still set, and whose status is 0 exactly if the
      device carried it out. */
  lemma TakeFinds(s: State)
    requires Inv(s) && s.seen < s.posted
    ensures var id := s.used[Slot(s.seen, s.num)];
            && id < s.num && s.stage[id] == Posted(s.seen)
            && s.info[id].Request? && s.info[id] == s.owner[id] && s.info[id].b < |s.reqs|
            && s.reqs[s.info[id].b].Live? && s.reqs[s.info[id].b].i0 == id
            && (s.status[id] <==> s.reqs[s.info[id].b].moves != [])
  {
    hide CountFree, CountLive, Slot, Low, Alloc;
    assert UsedOk(s, s.seen);
    var id := s.used[Slot(s.seen, s.num)];
    assert DescOk(s, id);
    assert ReqOk(s, s.owner[id].b);
  }

  /** The entry the handler looks at next is a request the device reported as failed. */
  predicate FailureNext(s: State)
    requires Sizes(s)
  {
    var id := s.used[Slot(s.seen, s.num)];
    id < s.num && !s.status[id]
  }

  lemma TakeKeeps(s: State)
    requires Inv(s) && Enabled(s, Take) && !FailureNext(s)
    ensures Inv(Apply(s, Take))
  {
    hide CountFree, CountLive, Slot, Low, Alloc;
    assert s.seen < s.posted;
    TakeFinds(s);
    var id := s.used[Slot(s.seen, s.num)];
    var b := s.info[id].b;
    var s' := Apply(s, Take);
    CountLiveUpdate(s.reqs, b, s'.reqs[b]);
    forall c: nat | c < |s.reqs| ensures ReqOk(s', c) { assert ReqOk(s, c); }
    forall i: nat | i < s.num ensures DescOk(s', i) && PlaceOk(s', i) { assert DescOk(s, i) && PlaceOk(s, i); }
    forall k: nat ensures AvailOk(s', k) && UsedOk(s', k) { assert AvailOk(s, k) && UsedOk(s, k); }
  }

  lemma HandlerKeeps(s: State, step: Step)
    requires Inv(s) && Enabled(s, step) && (step.Enter? || step.Exit?)
    ensures Inv(Apply(s, step))
  {
    hide CountFree, CountLive, Slot, Low, Alloc;
    var s' := Apply(s, step);
    forall c: nat | c < |s.reqs| ensures ReqOk(s', c) { assert ReqOk(s, c); }
    forall i: nat | i < s.num ensures DescOk(s', i) && PlaceOk(s', i) { assert DescOk(s, i) && PlaceOk(s, i); }
    forall k: nat ensures AvailOk(s', k) && UsedOk(s', k) { assert AvailOk(s, k) && UsedOk(s, k); }
  }

  lemma KillKeeps(s: State, b: nat)
    requires Inv(s) && Enabled(s, Kill(b))
    ensures Inv(Apply(s, Kill(b)))
  {
    hide CountFree, CountLive, Slot, Low, Alloc;
    var s' := Apply(s, Kill(b));
    CountLiveUpdate(s.reqs, b, s'.reqs[b]);
    forall c: nat | c < |s.reqs| ensures ReqOk(s', c) { assert ReqOk(s, c); }
    forall i: nat | i < s.num ensures DescOk(s', i) && PlaceOk(s', i) { assert DescOk(s, i) && PlaceOk(s, i); }
    forall k: nat ensures AvailOk(s', k) && UsedOk(s', k) { assert AvailOk(s, k) && UsedOk(s, k); }
  }

  lemma FetchKeeps(s: State)
    requires Inv(s) && Enabled(s, Fetch)
    ensures Inv(Apply(s, Fetch))
  {
    hide CountFree, CountLive, Slot, Low, Alloc;
    assert AvailOk(s, s.fetched);
    var h := s.avail[Slot(s.fetched, s.num)];
    assert DescOk(s, h);
    var s' := Apply(s, Fetch);
    forall c: nat | c < |s.reqs| ensures ReqOk(s', c) { assert ReqOk(s, c); }
    forall i: nat | i < s.num ensures DescOk(s', i) && PlaceOk(s', i) { assert DescOk(s, i) && PlaceOk(s, i); }
    forall k: nat ensures AvailOk(s', k) && UsedOk(s', k) { assert AvailOk(s, k) && UsedOk(s, k); }
  }

  /** The device finds a well formed chain at every head it fetched: the command, buffer and status byte
      of the request that owns the head. */
  lemma FollowFinds(s: State, h: nat)
    requires Inv(s) && h < s.num && !s.stage[h].Off?
    ensures s.owner[h].Request? && s.owner[h].b < |s.reqs|
    ensures var b := s.owner[h].b;
            var q := s.reqs[b];
            q.Live? && q.i0 == h && Follow(s, h) == Some((Transfer(b, q.sector, q.write), h))
  {
    hide CountFree, CountLive, Slot, Low, Alloc;
    assert DescOk(s, h);
    assert ReqOk(s, s.owner[h].b);
  }

  lemma MoveKeeps(s: State, h: nat)
    requires Inv(s) && Enabled(s, Move(h))
    ensures Inv(Apply(s, Move(h)))
  {
    hide CountFree, CountLive, Slot, Low, Alloc, Follow;
    FollowFinds(s, h);
    var b := s.owner[h].b;
    var s' := Apply(s, Move(h));
    CountLiveUpdate(s.reqs, b, s'.reqs[b]);
    forall c: nat | c < |s.reqs| ensures ReqOk(s', c) { assert ReqOk(s, c); }
    forall i: nat | i < s.num ensures DescOk(s', i) && PlaceOk(s', i) { assert DescOk(s, i) && PlaceOk(s, i); }
    forall k: nat ensures AvailOk(s', k) && UsedOk(s', k) { assert AvailOk(s, k) && UsedOk(s, k); }
  }

  lemma FailKeeps(s: State, h: nat)
    requires Inv(s) && Enabled(s, Fail(h))
    ensures Inv(Apply(s, Fail(h)))
  {
    hide CountFree, CountLive, Slot, Low, Alloc, Follow;
    FollowFinds(s, h);
    var s' := Apply(s, Fail(h));
    forall c: nat | c < |s.reqs| ensures ReqOk(s', c) { assert ReqOk(s, c); }
    forall i: nat | i < s.num ensures DescOk(s', i) && PlaceOk(s', i) { assert DescOk(s, i) && PlaceOk(s, i); }
    forall k: nat ensures AvailOk(s', k) && UsedOk(s', k) { assert AvailOk(s, k) && UsedOk(s, k); }
  }

  lemma PostKeeps(s: State, h: nat)
    requires Inv(s) && Enabled(s, Post(h))
    ensures Inv(Apply(s, Post(h)))
  {
    hide CountFree, CountLive, Slot, Low, Alloc;
    var s' := Apply(s, Post(h));
    RoomInRings(s);
    forall k: nat | s.seen <= k < s.posted ensures s'.used[Slot(k, s.num)] == s.used[Slot(k, s.num)] {
      SlotsApart(k, s.posted, s.num);
    }
    forall c: nat | c < |s.reqs| ensures ReqOk(s', c) { assert ReqOk(s, c); }
    forall i: nat | i < s.num ensures DescOk(s', i) && PlaceOk(s', i) { assert DescOk(s, i) && PlaceOk(s, i); }
    forall k: nat ensures AvailOk(s', k) && UsedOk(s', k) { assert AvailOk(s, k) && UsedOk(s, k); }
  }

  lemma BumpUsedKeeps(s: State)
    requires Inv(s) && Enabled(s, BumpUsed)
    ensures Inv(Apply(s, BumpUsed))
  {
    hide CountFree, CountLive, Slot, Low, Alloc;
    var s' := Apply(s, BumpUsed);
    forall c: nat | c < |s.reqs| ensures ReqOk(s', c) { assert ReqOk(s, c); }
    forall i: nat | i < s.num ensures DescOk(s', i) && PlaceOk(s', i) { assert DescOk(s, i) && PlaceOk(s, i); }
    forall k: nat ensures AvailOk(s', k) && UsedOk(s', k) { assert AvailOk(s, k) && UsedOk(s, k); }
  }

  /** Every step keeps the invariant, except the handler's panic on a failed request. */
  lemma StepKeepsInv(s: State, step: Step)
    requires Inv(s) && Enabled(s, step)
    ensures if step.Take? && FailureNext(s) then Apply(s, step).panicked
            else Inv(Apply(s, step)) && !Apply(s, step).panicked
  {
    if step.Take? && FailureNext(s) {
      return;
    }
    hide *;
    match step {
      case Start(b, sector, write) => StartKeeps(s, b, sector, write);
      case PutRing(b) => PutRingKeeps(s, b);
      case BumpAvail(b) => BumpAvailKeeps(s, b);
      case Await(b) => AwaitKeeps(s, b);
      case Enter => HandlerKeeps(s, step);
      case Take => TakeKeeps(s);
      case Exit => HandlerKeeps(s, step);
      case Kill(b) => KillKeeps(s, b);
      case Fetch => FetchKeeps(s);
      case Move(h) => MoveKeeps(s, h);
      case Fail(h) => FailKeeps(s, h);
      case Post(h) => PostKeeps(s, h);
      case BumpUsed => BumpUsedKeeps(s);
    }
    NotPanicked(Apply(s, step));
  }

  lemma NotPanicked(s: State)
    requires Inv(s)
    ensures !s.panicked
  {
  }

  lemma InitialInv(s: State)
    requires Initial(s)
    ensures Inv(s)
  {
    hide Alloc, Low, Slot;
    AllFree(s.free);
    NoneLive(s.reqs);
    forall c: nat | c < |s.reqs| ensures ReqOk(s, c) { assert s.reqs[c].Idle?; }
    forall i: nat | i < s.num ensures DescOk(s, i) && PlaceOk(s, i) { assert s.free[i] && s.owner[i].Nobody?; }
    forall k: nat ensures AvailOk(s, k) && UsedOk(s, k) {}
  }

  lemma {:induction false} AllFree(free: seq<bool>)
    requires forall i :: 0 <= i < |free| ==> free[i]
    ensures CountFree(free) == |free|
    decreases |free|
  {
    if free != [] {
      AllFree(free[..|free| - 1]);
    }
  }

  lemma {:induction false} NoneLive(reqs: seq<Req>)
    requires forall b :: 0 <= b < |reqs| ==> reqs[b].Idle?
    ensures CountLive(reqs) == 0
    decreases |reqs|
  {
    if reqs != [] {
      NoneLive(reqs[..|reqs| - 1]);
    }
  }

  lemma {:induction false} RunKeepsInv(s: State, steps: seq<Step>, t: State)
    requires Inv(s) && Run(s, steps, t)
    ensures !t.panicked ==> Inv(t)
    decreases |steps|
  {
    hide Inv, Enabled, Apply;
    if steps != [] {
      StepKeepsInv(s, steps[0]);
      var u := Apply(s, steps[0]);
      if u.panicked {
        if |steps| > 1 {
          PanicStops(u, steps[1]);
        }
      } else {
        RunKeepsInv(u, steps[1..], t);
      }
    }
  }

  lemma PanicStops(s: State, step: Step)
    ensures s.panicked ==> !Enabled(s, step)
  {
  }

  /** No request has been reported as failed. */
  predicate NoFailure(s: State) {
    |s.stage| == |s.status| && forall h :: 0 <= h < |s.stage| && Done(s.stage[h]) ==> s.status[h]
  }

  lemma StepKeepsNoFailure(s: State, step: Step)
    requires Inv(s) && Enabled(s, step) && NoFailure(s) && !step.Fail?
    ensures NoFailure(Apply(s, step)) && !(step.Take? && FailureNext(s))
  {
    hide CountFree, CountLive, Slot, Low, Alloc, Follow, FreeChain, ReqOk, DescOk, PlaceOk;
    match step
    case Take => TakeFinds(s);
    case Move(h) => FollowFinds(s, h);
    case _ =>
  }

  lemma {:induction false} RunKeepsNoFailure(s: State, steps: seq<Step>, t: State)
    requires Inv(s) && Run(s, steps, t) && NoFailure(s) && forall h: nat :: Fail(h) !in steps
    ensures !t.panicked
    decreases |steps|
  {
    NotPanicked(s);
    hide Inv, Enabled, Apply, NoFailure;
    if steps != [] {
      StepKeepsNoFailure(s, steps[0]);
      StepKeepsInv(s, steps[0]);
      RunKeepsNoFailure(Apply(s, steps[0]), steps[1..], t);
    }
  }

  // ---------------------------------------------------------------- main results

  function ChainOf(q: Req): set<nat>
    requires q.Live?
  {
    {q.i0, q.i1, q.i2}
  }

  /** In every run: nothing panics unless the device reported a failure; until then live chains are three
      descriptors each and pairwise disjoint, none of them free; free and owned descriptors add up to NUM;
      both rings keep a spare slot. */
  lemma VirtqueueSafety(s: State, steps: seq<Step>, t: State)
    requires Initial(s) && Run(s, steps, t)
    ensures t.panicked ==> exists h: nat :: Fail(h) in steps
    ensures !t.panicked ==> Sound(t)
  {
    hide CountFree, CountLive, Slot, Low, Alloc, Progress, Enabled, Run;
    InitialInv(s);
    RunKeepsInv(s, steps, t);
    if t.panicked && forall h: nat :: Fail(h) !in steps {
      assert NoFailure(s);
      RunKeepsNoFailure(s, steps, t);
    }
    if !t.panicked {
      InvSound(t);
    }
  }

  ghost predicate Sound(t: State) {
    && Sizes(t) && CountFree(t.free) + 3 * CountLive(t.reqs) == t.num
    && (forall b :: 0 <= b < |t.reqs| && t.reqs[b].Live? ==>
          |ChainOf(t.reqs[b])| == 3 && forall i :: i in ChainOf(t.reqs[b]) ==> i < t.num && !t.free[i])
    && (forall b, c :: 0 <= b < c < |t.reqs| && t.reqs[b].Live? && t.reqs[c].Live? ==>
          ChainOf(t.reqs[b]) !! ChainOf(t.reqs[c]))
    && t.offered - t.fetched < t.num && t.posted - t.seen < t.num
  }

  lemma InvSound(t: State)
    requires Inv(t)
    ensures Sound(t)
  {
    hide CountFree, CountLive, Slot, Low, Alloc, Progress;
    RoomInRings(t);
    forall b: nat | b < |t.reqs| && t.reqs[b].Live?
      ensures |ChainOf(t.reqs[b])| == 3 && forall i :: i in ChainOf(t.reqs[b]) ==> i < t.num && !t.free[i]
      ensures forall i :: i in ChainOf(t.reqs[b]) ==> t.owner[i] == Request(b)
    {
      var q := t.reqs[b];
      assert ReqOk(t, b);
      assert DescOk(t, q.i0) && DescOk(t, q.i1) && DescOk(t, q.i2);
    }
  }

  /** The exact condition: the one step that can panic is the handler's look at a used entry, and it does so if and
      only if that entry is a request the device reported as failed; free_desc never panics, and the device
      never meets a malformed chain. */
  lemma PanicsExactly(s: State, steps: seq<Step>, t: State, step: Step)
    requires Initial(s) && Run(s, steps, t) && Enabled(t, step)
    ensures Apply(t, step).panicked <==> step.Take? && FailureNext(t)
    ensures step.Take? ==>
              && t.used[Slot(t.seen, t.num)] < t.num && t.info[t.used[Slot(t.seen, t.num)]].Request?
              && var b := t.info[t.used[Slot(t.seen, t.num)]].b;
                 b < |t.reqs| && t.reqs[b].Live? && (FailureNext(t) <==> t.reqs[b].moves == [])
  {
    hide CountFree, CountLive, Slot, Low, Alloc, Run;
    InitialInv(s);
    RunKeepsInv(s, steps, t);
    PanicStops(t, step);
    StepKeepsInv(t, step);
    if step.Take? {
      TakeFinds(t);
    }
  }

  /** An entry of either ring that is unconsumed before and after a step is not changed by it, whoever
      takes the step and however often the 16-bit indices have wrapped. */
  lemma EntriesSurvive(s: State, step: Step, k: nat)
    requires Inv(s) && Enabled(s, step)
    ensures var t := Apply(s, step);
            && (s.fetched <= k < s.offered ==> t.avail[Slot(k, s.num)] == s.avail[Slot(k, s.num)])
            && (s.seen <= k < s.posted ==> t.used[Slot(k, s.num)] == s.used[Slot(k, s.num)])
  {
    hide CountFree, CountLive, Slot, Low, Alloc, ReqOk, DescOk, PlaceOk, FreeChain, Follow;
    RoomInRings(s);
    if s.fetched <= k < s.offered {
      SlotsApart(k, s.offered, s.num);
    }
    if s.seen <= k < s.posted {
      SlotsApart(k, s.posted, s.num);
    }
  }

  /** What the last call of virtio_disk_rw for buffer `b` asked for: sector and direction. */
  ghost function Asked(s: State, steps: seq<Step>, b: nat, ask: (nat, bool)): (nat, bool)
    decreases |steps|
  {
    if steps == [] || !Enabled(s, steps[0]) then ask
    else Asked(Apply(s, steps[0]), steps[1..], b, if steps[0].Start?
      && steps[0].b == b then (steps[0].sector, steps[0].write) else ask)
  }

  predicate Recalls(s: State, b: nat, ask: (nat, bool)) {
    b < |s.reqs| && (s.reqs[b].Live? ==> (s.reqs[b].sector, s.reqs[b].write) == ask)
  }

  lemma StepRecalls(s: State, step: Step, b: nat, ask: (nat, bool))
    requires Enabled(s, step) && Recalls(s, b, ask)
    ensures Recalls(Apply(s, step), b, if step.Start? && step.b == b then (step.sector, step.write) else ask)
  {
    hide Alloc, FreeChain, Slot, Low;
  }

  lemma {:induction false} RunRecalls(s: State, steps: seq<Step>, t: State, b: nat, ask: (nat, bool))
    requires Run(s, steps, t) && Recalls(s, b, ask)
    ensures Recalls(t, b, Asked(s, steps, b, ask))
    decreases |steps|
  {
    hide Enabled, Apply, Recalls;
    if steps != [] {
      StepRecalls(s, steps[0], b, ask);
      RunRecalls(Apply(s, steps[0]), steps[1..], t, b,
        if steps[0].Start? && steps[0].b == b then (steps[0].sector, steps[0].write) else ask);
    }
  }

  /** When virtio_disk_rw returns, the device has carried out exactly once what it was called for, on its own buffer and
      the sector and direction of the call, and the flag was cleared exactly once. */
  lemma ServedExactlyOnce(s: State, steps: seq<Step>, t: State, b: nat)
    requires Initial(s) && Run(s, steps, t) && Enabled(t, Await(b)) && Apply(t, Await(b)).reqs[b].Idle?
    ensures t.reqs[b].clears == 1
    ensures var ask := Asked(s, steps, b, (0, false)); t.reqs[b].moves == [Transfer(b, ask.0, ask.1)]
  {
    hide CountFree, CountLive, Slot, Low, Alloc, Run, Finish, Asked;
    InitialInv(s);
    RunKeepsInv(s, steps, t);
    assert ReqOk(t, b);
    SameReqs(s, steps, t);
    RunRecalls(s, steps, t, b, (0, false));
  }

  lemma {:induction false} SameReqs(s: State, steps: seq<Step>, t: State)
    requires Run(s, steps, t)
    ensures |t.reqs| == |s.reqs|
    decreases |steps|
  {
    if steps != [] {
      OneStepReqs(s, steps[0]);
      SameReqs(Apply(s, steps[0]), steps[1..], t);
    }
  }

  lemma OneStepReqs(s: State, step: Step)
    requires Enabled(s, step)
    ensures |Apply(s, step).reqs| == |s.reqs|
  {
    hide Alloc, FreeChain, Slot, Low;
  }

  /** No step leaves things as they were, and a call gets its three descriptors or goes to sleep for them. */
  lemma StepMoves(s: State, step: Step)
    requires Inv(s) && Enabled(s, step)
    ensures Apply(s, step) != s
    ensures step.Start? ==> var q := Apply(s, step).reqs[step.b];
              if CountFree(s.free) < 3 then q.Starved? else q.Live? && (q.sector, q.write) == (step.sector, step.write)
  {
    hide CountFree, CountLive, Slot, Low, FreeChain;
    if step.Start? {
      AllocFails(s.free);
    }
    if step.Await? {
      assert ReqOk(s, step.b);
    }
    if step.Post? {
      assert PlaceOk(s, step.h);
    }
  }

  /** The next step of a request's chain through the device and the handler. */
  predicate ChainGoesOn(s: State, h: nat)
    requires Sizes(s) && h < s.num
  {
    match s.stage[h]
    case Offered(_) => Enabled(s, Fetch)
    case Fetched => Enabled(s, Move(h))
    case Moved => Enabled(s, Post(h)) || Enabled(s, BumpUsed)
    case Posting => Enabled(s, BumpUsed)
    case Posted(_) => (s.lock.Unlocked? ==> Enabled(s, Enter)) && (s.lock.Handler? ==> Enabled(s, Take))
    case _ => true
  }

  /** Nobody is stuck: the lock's holder can go on, a caller that is awake can go on once the lock is free, and a caller
      asleep on its buffer has its chain on the way, with the next step open to the device or the handler. */
  lemma NeverStuck(s: State, b: nat)
    requires Inv(s) && b < |s.reqs|
    ensures s.lock.Handler? ==> Enabled(s, Take) || Enabled(s, Exit)
    ensures HasPc(s, b, Built) ==> Enabled(s, PutRing(b))
    ensures HasPc(s, b, InSlot) ==> Enabled(s, BumpAvail(b))
    ensures HasPc(s, b, Published) ==> Enabled(s, Await(b))
    ensures HasPc(s, b, Awake) && s.lock.Unlocked? ==> Enabled(s, Await(b))
    ensures s.reqs[b].Idle? && s.lock.Unlocked? ==> forall sector, write :: Enabled(s, Start(b, sector, write))
    ensures HasPc(s, b, Asleep) ==> Sizes(s) && s.reqs[b].i0 < s.num && ChainGoesOn(s, s.reqs[b].i0)
    ensures HasPc(s, b, Asleep) ==> var g := s.stage[s.reqs[b].i0]; !g.Off? && !g.Held? && !g.Cleared?
  {
    hide CountFree, CountLive, Slot, Low, Alloc;
    assert ReqOk(s, b);
    RoomInRings(s);
    NumBelow(s.num);
    LowIsExact(s.fetched, s.offered);
    LowIsExact(s.seen, s.posted);
    if s.reqs[b].Live? {
      assert PlaceOk(s, s.reqs[b].i0);
    }
  }

  /** No wakeup is lost: whoever sleeps on its buffer still has its flag set, whoever sleeps on
      &disk.free[0] would still fail to get three descriptors, and when the handler leaves, it has
      taken every used entry. */
  lemma NoLostCompletion(s: State, steps: seq<Step>, t: State)
    requires Initial(s) && Run(s, steps, t) && !t.panicked
    ensures Sizes(t)
    ensures forall b: nat :: HasPc(t, b, Asleep) ==> t.disk[b] && t.reqs[b].clears == 0
    ensures forall b: nat :: b < |t.reqs| && t.reqs[b].Starved? ==> CountFree(t.free) < 3
    ensures Enabled(t, Exit) ==> t.seen == t.posted
  {
    hide CountFree, CountLive, Slot, Low, Alloc, Run;
    InitialInv(s);
    RunKeepsInv(s, steps, t);
    AllocFails(t.free);
    forall b: nat | b < |t.reqs|
      ensures HasPc(t, b, Asleep) ==> t.disk[b] && t.reqs[b].clears == 0
      ensures t.reqs[b].Starved? ==> CountFree(t.free) < 3
    {
      assert ReqOk(t, b);
    }
    if Enabled(t, Exit) {
      RoomInRings(t);
      NumBelow(t.num);
      LowIsExact(t.seen, t.posted);
    }
  }

  lemma NumBelow(num: nat)
    requires num > 0 && M % num == 0
    ensures num <= M
  {
  }
}
