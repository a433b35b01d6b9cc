/**
  The virtio disk driver's own code: its descriptor allocator, the request it formats, and the
  interrupt handler's loop, each tied to the step of the queue protocol it carries out.
*/
module VirtioDisk {
  import opened Machine
  import opened Virtqueue

  // ---------------------------------------------------------------- alloc3_desc's loop

  /** The allocator after the descriptors `idx` were taken from it. */
  function Marked(free: seq<bool>, idx: seq<nat>): (r: seq<bool>)
    ensures |r| == |free| && forall i :: 0 <= i < |r| ==> r[i] == (free[i] && i !in idx)
  {
    seq(|free|, i requires 0 <= i < |free| => free[i] && i !in idx)
  }

  /** Each of `idx` was the lowest one free when it was taken. */
  ghost predicate Taken(free: seq<bool>, idx: seq<nat>)
    decreases |idx|
  {
    idx == [] || var n := |idx| - 1;
      Taken(free, idx[..n]) && idx[n] == First(Marked(free, idx[..n])) < |free|
  }

  lemma {:induction false} TakenFacts(free: seq<bool>, idx: seq<nat>)
    requires Taken(free, idx)
    ensures forall j :: 0 <= j < |idx| ==> idx[j] < |free| && free[idx[j]]
    ensures forall j, k :: 0 <= j < k < |idx| ==> idx[j] != idx[k]
    decreases |idx|
  {
    if idx != [] {
      var n := |idx| - 1;
      TakenFacts(free, idx[..n]);
      assert Marked(free, idx[..n])[idx[n]];
      forall j | 0 <= j < n ensures idx[j] != idx[n] {
        assert idx[j] in idx[..n];
      }
    }
  }

  lemma TakeOne(free: seq<bool>, idx: seq<nat>, i: nat)
    requires Taken(free, idx) && i == First(Marked(free, idx)) < |free|
    ensures Taken(free, idx + [i]) && Marked(free, idx)[i := false] == Marked(free, idx + [i])
  {
    assert (idx + [i])[..|idx|] == idx;
  }

  lemma {:induction false} TakenLast(free: seq<bool>, idx: seq<nat>)
    requires Taken(free, idx) && idx != []
    ensures var n := |idx| - 1;
            && Taken(free, idx[..n]) && idx[n] == First(Marked(free, idx[..n])) < |free|
            && Marked(free, idx) == Marked(free, idx[..n])[idx[n] := false]
  {
    hide First, Marked;
    var n := |idx| - 1;
    assert Taken(free, idx[..n]);
    assert idx == idx[..n] + [idx[n]];
    hide Taken;
    TakeOne(free, idx[..n], idx[n]);
  }

  lemma {:induction false} AllocSteps(free: seq<bool>, idx: seq<nat>)
    requires Taken(free, idx) && |idx| <= 3
    ensures |idx| >= 1 ==> idx[0] == First(free) < |free|
    ensures |idx| == 1 ==> Marked(free, idx) == free[idx[0] := false]
    ensures |idx| >= 2 ==> idx[1] == First(free[idx[0] := false]) < |free|
    ensures |idx| == 2 ==> Marked(free, idx) == free[idx[0] := false][idx[1] := false]
    ensures |idx| >= 3 ==> idx[2] == First(free[idx[0] := false][idx[1] := false]) < |free|
    ensures |idx| == 3 ==> Marked(free, idx) == free[idx[0] := false][idx[1] := false][idx[2] := false]
  {
    assert Marked(free, []) == free;
    hide First, Taken, Marked;
    assert idx[..|idx|] == idx && idx[..0] == [];
    if |idx| == 3 {
      TakenLast(free, idx);
    }
    if |idx| >= 2 {
      assert idx[..2][..1] == idx[..1];
      TakenLast(free, idx[..2]);
    }
    if |idx| >= 1 {
      assert idx[..1][..0] == [];
      TakenLast(free, idx[..1]);
    }
  }

  lemma AllocStops(free: seq<bool>, idx: seq<nat>)
    requires Taken(free, idx) && |idx| < 3 && First(Marked(free, idx)) == |free|
    ensures Alloc(free).NoRoom?
  {
    AllocSteps(free, idx);
    assert idx == [] ==> Marked(free, idx) == free;
  }

  lemma AllocDone(free: seq<bool>, idx: seq<nat>)
    requires Taken(free, idx) && |idx| == 3
    ensures Alloc(free) == Three(idx[0], idx[1], idx[2])
            && Marked(free, idx) == Give(free, idx[0], idx[1], idx[2], false)
  {
    AllocSteps(free, idx);
  }

  /** struct disk, together with the buffers' `disk` flags.  The device writes `used`, `usedIdx` and
      `status`; a panic is reported as a false result. */
  class Disk {
    const num: nat
    const free: array<bool>
    const desc: array<Desc>
    const ops: array<Command>
    const info: array<Owner>
    const status: array<bool>
    const avail: array<nat>
    const used: array<nat>
    const flags: array<bool>
    var availIdx: nat
    var usedIdx: nat
    var usedSeen: nat

    ghost predicate Valid()
      reads this
    {
      && 0 < num <= M && M % num == 0
      && free.Length == desc.Length == ops.Length == info.Length == status.Length == num
      && avail.Length == used.Length == num
      && free != status && free != flags && status != flags && avail != used
      && availIdx < M && usedIdx < M && usedSeen < M
    }

    ghost function Now(): Memory
      reads this, free, desc, ops, info, status, avail, used, flags
    {
      Memory(free[..], desc[..], ops[..], info[..], status[..], avail[..], used[..], flags[..], availIdx, usedIdx,
        usedSeen)
    }

    /** The memory is that of state `s` of the protocol. */
    ghost predicate Shows(s: State)
      reads this, free, desc, ops, info, status, avail, used, flags
    {
      Now() == MemoryOf(s) && s.num == num
    }

    /** virtio_disk_init's share of it: everything free and zero. */
    constructor (n: nat, buffers: nat)
      requires 0 < n <= M && M % n == 0
      ensures Valid() && num == n && flags.Length == buffers
      ensures availIdx == usedIdx == usedSeen == 0
      ensures forall i :: 0 <= i < n ==> free[i] && desc[i] == Blank
    {
      num := n;
      free := new bool[n](i => true);
      desc := new Desc[n](i => Blank);
      ops := new Command[n](i => Command(false, 0));
      info := new Owner[n](i => Nobody);
      status := new bool[n](i => false);
      avail := new nat[n](i => 0);
      used := new nat[n](i => 0);
      flags := new bool[buffers](i => false);
      availIdx, usedIdx, usedSeen := 0, 0, 0;
    }

    /** The lowest free descriptor, now taken, or -1. */
    method AllocDesc() returns (i: int)
      requires Valid()
      modifies free
      ensures i == -1 <==> First(old(free[..])) == num
      ensures i == -1 ==> free[..] == old(free[..])
      ensures i != -1 ==> i == First(old(free[..])) && free[..] == old(free[..])[i := false]
    {
      i := 0;
      while i < num
        invariant 0 <= i <= num && free[..] == old(free[..])
        invariant forall j :: 0 <= j < i ==> !free[j]
      {
        if free[i] {
          free[i] := false;
          return;
        }
        i := i + 1;
      }
      i := -1;
    }

    /** False is one of the two panics. */
    method FreeDesc(i: nat) returns (ok: bool)
      requires Valid()
      modifies free, desc
      ensures ok == (i < num && !old(free[..])[i])
      ensures !ok ==> free[..] == old(free[..]) && desc[..] == old(desc[..])
      ensures ok ==> free[..] == old(free[..])[i := true] && desc[..] == old(desc[..])[i := Blank]
    {
      if i >= num || free[i] {
        return false;
      }
      desc[i] := Blank;
      free[i] := true;
      return true;
    }

    method ReleaseChain(head: nat) returns (ok: bool)
      requires Valid()
      modifies free, desc
      ensures Freed(free[..], desc[..], ok) == FreeChain(old(free[..]), old(desc[..]), head)
    {
      var i: nat := head;
      while true
        invariant FreeChain(free[..], desc[..], i) == FreeChain(old(free[..]), old(desc[..]), head)
        decreases num - CountFree(free[..])
      {
        ghost var f := free[..];
        if i >= num || free[i] {
          return false;
        }
        var more, next := desc[i].more, desc[i].next;
        ok := FreeDesc(i);
        CountFreeUpdate(f, i, true);
        if more {
          i := next;
        } else {
          return true;
        }
      }
    }

    /** The inner loop of alloc3_desc: give back what was taken so far. */
    method RollBack(idx: seq<nat>, ghost f0: seq<bool>)
      requires Valid() && |f0| == num
      requires forall j :: 0 <= j < |idx| ==> idx[j] < num && f0[idx[j]]
      requires forall j, k :: 0 <= j < k < |idx| ==> idx[j] != idx[k]
      requires forall i :: 0 <= i < num ==> free[i] == (f0[i] && i !in idx)
      modifies free, desc
      ensures free[..] == f0
      ensures forall i :: 0 <= i < num ==> desc[i] == if i in idx then Blank else old(desc[i])
    {
      var j := 0;
      while j < |idx|
        invariant j <= |idx|
        invariant forall i :: 0 <= i < num ==> free[i] == (f0[i] && i !in idx[j..])
        invariant forall i :: 0 <= i < num ==> desc[i] == if i in idx[..j] then Blank else old(desc[i])
      {
        assert idx[j] in idx[j..] && idx[j..] == [idx[j]] + idx[j + 1..] && idx[..j + 1] == idx[..j] + [idx[j]];
        assert idx[j] !in idx[j + 1..];
        ghost var f, d := free[..], desc[..];
        var ok := FreeDesc(idx[j]);
        assert forall i :: 0 <= i < num ==> free[..][i] == f[idx[j] := true][i] && desc[..][i] == d[idx[j] := Blank][i];
        j := j + 1;
      }
      assert idx[..j] == idx;
    }

    /** alloc3_desc: all three or none; a failed attempt leaves the allocator as it was. */
    method AllocThree() returns (ok: bool, i0: nat, i1: nat, i2: nat)
      requires Valid()
      modifies free, desc
      ensures ok == Alloc(old(free[..])).Three?
      ensures ok ==> Alloc(old(free[..])) == Three(i0, i1, i2)
      ensures ok ==> free[..] == Give(old(free[..]), i0, i1, i2, false) && desc[..] == old(desc[..])
      ensures !ok ==> free[..] == old(free[..])
      ensures !ok ==> forall i :: 0 <= i < num ==> desc[i] == old(desc[i]) || (free[i] && desc[i] == Blank)
    {
      hide First;
      ghost var f0 := free[..];
      var idx: seq<nat> := [];
      while |idx| < 3
        invariant |idx| <= 3 && desc[..] == old(desc[..])
        invariant Taken(f0, idx) && free[..] == Marked(f0, idx)
        decreases 3 - |idx|
      {
        var i := AllocDesc();
        TakenFacts(f0, idx);
        if i < 0 {
          AllocStops(f0, idx);
          RollBack(idx, f0);
          return false, 0, 0, 0;
        }
        TakeOne(f0, idx, i);
        idx := idx + [i];
      }
      AllocDone(f0, idx);
      return true, idx[0], idx[1], idx[2];
    }
  
    /** virtio_disk_rw from alloc3_desc to the new avail index, store by store. */
    method Format(b: nat, sector: nat, write: bool) returns (ok: bool, i0: nat, i1: nat, i2: nat)
      requires Valid() && b < flags.Length
      modifies this`availIdx, free, desc, ops, info, status, avail, flags
      ensures Valid() && ok == Alloc(old(free[..])).Three?
      ensures ok ==> Alloc(old(free[..])) == Three(i0, i1, i2)
      ensures ok ==> free[..] == Give(old(free[..]), i0, i1, i2, false)
      ensures ok ==> desc[..] == Set3(old(desc[..]), i0, i1, i2, HeadDesc(i0, i1), DataDesc(b, write, i2),
              StatusDesc(i0))
      ensures ok ==> ops[..] == old(ops[..])[i0 := Command(write, sector)]
      ensures ok ==> info[..] == old(info[..])[i0 := Request(b)] && status[..] == old(status[..])[i0 := false]
      ensures ok ==> flags[..] == old(flags[..])[b := true]
      ensures ok ==> avail[..] == old(avail[..])[old(availIdx) % num := i0]
      ensures ok ==> availIdx == Bump(old(availIdx), 1, M)
      ensures !ok ==> Now() == old(Now()).(desc := desc[..])
      ensures !ok ==> forall i :: 0 <= i < num ==> desc[i] == old(desc[i]) || (free[i] && desc[i] == Blank)
    {
      hide Alloc;
      ok, i0, i1, i2 := AllocThree();
      if !ok {
        return;
      }
      ops[i0] := Command(write, sector);
      desc[i0] := HeadDesc(i0, i1);
      desc[i1] := DataDesc(b, write, i2);
      status[i0] := false;
      desc[i2] := StatusDesc(i0);
      flags[b] := true;
      info[i0] := Request(b);
      avail[availIdx % num] := i0;
      availIdx := Bump(availIdx, 1, M);
    }

    /** virtio_disk_rw up to the notification, from memory that shows the protocol's state `s`: afterwards it
        shows the state after the steps Start, PutRing and BumpAvail, or, without three free descriptors, the
        state in which the caller sleeps. */
    method Submit(b: nat, sector: nat, write: bool, ghost s: State) returns (ok: bool, i0: nat, ghost t: State)
      requires Valid() && Shows(s) && Inv(s) && Enabled(s, Start(b, sector, write))
      modifies this`availIdx, free, desc, ops, info, status, avail, flags
      ensures Valid() && Shows(t)
      ensures ok == (CountFree(s.free) >= 3)
      ensures ok ==> Run(s, [Start(b, sector, write), PutRing(b), BumpAvail(b)], t)
      ensures ok ==> HasPc(t, b, Published) && t.reqs[b].i0 == i0
      ensures !ok ==> Run(s, [Start(b, sector, write)], t) && b < |t.reqs| && t.reqs[b].Starved?
    {
      hide Alloc, Inv, CountFree, Run, Enabled, Apply;
      ghost var m := Now();
      SubmitStarts(s, b, sector, write);
      var i1, i2;
      ok, i0, i1, i2 := Format(b, sector, write);
      if ok {
        t := SubmitSteps(s, b, sector, write, i0, i1, i2);
      } else {
        t := SubmitFails(s, b, sector, write);
        assert desc[..] == m.desc by { BlankStays(s, m.desc, desc[..]); }
      }
    }

    /** virtio_disk_rw once b->disk is 0: the state after the step Await. */
    method Finish(b: nat, i0: nat, ghost s: State) returns (ok: bool)
      requires Valid() && Shows(s) && Inv(s) && Enabled(s, Await(b)) && !s.disk[b] && s.reqs[b].i0 == i0
      modifies free, desc, info
      ensures ok && Valid() && Shows(Apply(s, Await(b))) && Apply(s, Await(b)).reqs[b].Idle?
    {
      hide Inv, CountFree, FreeChain;
      FinishSteps(s, b);
      info[i0] := Nobody;
      ok := ReleaseChain(i0);
    }

    /** virtio_disk_intr's loop, from memory that shows state `s` of the protocol with the handler in: a run of
        Take steps, over every entry between its own index and the device's, across the wrap of both, after
        which the handler may leave, or the last of which panicked.  It clears exactly the flags of the
        requests the entries name and panics exactly when one of them is not a completed request. */
    method Interrupt(ghost s: State) returns (ok: bool, ghost steps: seq<Step>, ghost t: State)
      requires Valid() && Shows(s) && Sizes(s) && s.lock.Handler? && !s.panicked
      modifies this`usedSeen, flags
      ensures Valid() && Run(s, steps, t) && (forall k :: 0 <= k < |steps| ==> steps[k].Take?)
      ensures if ok then Shows(t) && Enabled(t, Exit) else t.panicked
      ensures var seen, n := old(usedSeen), Dist(old(usedSeen), usedIdx, M);
              && ok == AllGood(used[..], info[..], status[..], flags.Length, seen, n)
              && (ok ==> usedSeen == usedIdx)
              && (ok ==> forall b: nat :: b < flags.Length ==>
                    flags[b] == (old(flags[b]) && !Named(used[..], info[..], seen, n, b)))
    {
      hide SlotAt, AllGood, Named, Run, Apply, Low, Slot;
      ghost var seen, n, c: nat := usedSeen, Dist(usedSeen, usedIdx, M), 0;
      ghost var ring, owners, good := used[..], info[..], status[..];
      NothingTaken(ring, owners, good, flags.Length, seen);
      steps, t := [], s;
      assert Run(s, [], s) by { EmptyRun(s); }
      while usedSeen != usedIdx
        invariant c <= n && usedSeen == Bump(seen, c, M) && Dist(usedSeen, usedIdx, M) == n - c
        invariant Shows(t) && Sizes(t) && t.lock.Handler? && !t.panicked && Run(s, steps, t)
        invariant forall k :: 0 <= k < |steps| ==> steps[k].Take?
        invariant AllGood(ring, owners, good, flags.Length, seen, c)
        invariant forall b: nat :: b < flags.Length ==> flags[b] == (old(flags[b]) && !Named(ring, owners, seen, c, b))
        decreases n - c
      {
        SlotWraps(seen, c, 0, num, M);
        SlotIsMod(usedSeen, num);
        TakeStep(t);
        ghost var u := Apply(t, Take);
        RunMore(s, steps, t, Take);
        steps, t := steps + [Take], u;
        var id := used[usedSeen % num];
        if id >= num || !status[id] || info[id].Nobody? || info[id].b >= flags.Length {
          BadEntry(ring, owners, good, flags.Length, seen, c, n);
          return false, steps, t;
        }
        flags[info[id].b] := false;
        OneTaken(ring, owners, good, flags.Length, seen, c);
        usedSeen := Bump(usedSeen, 1, M);
        c := c + 1;
      }
      return true, steps, t;
    }
  }

  // ---------------------------------------------------------------- the driver's memory and the protocol

  /** What driver and device share, and the buffers' flags. */
  datatype Memory = Memory(free: seq<bool>, desc: seq<Desc>, ops: seq<Command>, info: seq<Owner>, status: seq<bool>,
                           avail: seq<nat>, used: seq<nat>, flags: seq<bool>, availIdx: nat, usedIdx: nat,
                             usedSeen: nat)

  /** The memory of a state of the protocol; the 16-bit indices are the low parts of the counts. */
  function MemoryOf(s: State): Memory {
    Memory(s.free, s.desc, s.ops, s.info, s.status, s.avail, s.used, s.disk, Low(s.offered), Low(s.posted), Low(s.seen))
  }

  lemma LowNext(k: nat)
    ensures Low(k + 1) == Bump(Low(k), 1, M)
  {
    if k % M + 1 < M {
      DivModUnique(k + 1, M, k / M, k % M + 1);
    } else {
      DivModUnique(k + 1, M, k / M + 1, 0);
    }
  }

  lemma EmptyRun(s: State)
    ensures Run(s, [], s)
  {
  }

  lemma {:induction false} RunMore(s: State, steps: seq<Step>, t: State, step: Step)
    requires Run(s, steps, t) && Enabled(t, step)
    ensures Run(s, steps + [step], Apply(t, step))
    decreases |steps|
  {
    hide Enabled, Apply;
    if steps == [] {
      assert (steps + [step])[1..] == [];
    } else {
      RunMore(Apply(s, steps[0]), steps[1..], t, step);
      assert (steps + [step])[1..] == steps[1..] + [step];
    }
  }

  lemma SubmitStarts(s: State, b: nat, sector: nat, write: bool)
    requires Enabled(s, Start(b, sector, write))
    ensures b < |s.disk| && (Alloc(s.free).Three? <==> CountFree(s.free) >= 3)
  {
    AllocFails(s.free);
  }

  /** The three steps of a submission, in the driver's terms. */
  lemma SubmitSteps(s: State, b: nat, sector: nat, write: bool, i0: nat, i1: nat, i2: nat) returns (t: State)
    requires Enabled(s, Start(b, sector, write)) && Alloc(s.free) == Three(i0, i1, i2)
    ensures Run(s, [Start(b, sector, write), PutRing(b), BumpAvail(b)], t) && HasPc(t, b, Published)
            && t.reqs[b].i0 == i0 && t.num == s.num
    ensures MemoryOf(t) == MemoryOf(s).(
      free := Give(s.free, i0, i1, i2, false),
      desc := Set3(s.desc, i0, i1, i2, HeadDesc(i0, i1), DataDesc(b, write, i2), StatusDesc(i0)),
      ops := s.ops[i0 := Command(write, sector)], info := s.info[i0 := Request(b)], status := s.status[i0 := false],
      flags := s.disk[b := true], avail := s.avail[Low(s.offered) % s.num := i0],
        availIdx := Bump(Low(s.offered), 1, M))
  {
    hide Alloc, Low;
    var s1 := Apply(s, Start(b, sector, write));
    assert s1 == Virtqueue.Submit(s, b, sector, write, Three(i0, i1, i2));
    var s2 := Apply(s1, PutRing(b));
    t := Apply(s2, BumpAvail(b));
    LowNext(s.offered);
    EmptyRun(s);
    hide Run;
    RunMore(s, [], s, Start(b, sector, write));
    RunMore(s, [Start(b, sector, write)], s1, PutRing(b));
    RunMore(s, [Start(b, sector, write), PutRing(b)], s2, BumpAvail(b));
    assert [] + [Start(b, sector, write)] == [Start(b, sector, write)];
    assert [Start(b, sector, write)] + [PutRing(b)] == [Start(b, sector, write), PutRing(b)];
    assert [Start(b, sector, write), PutRing(b)] + [BumpAvail(b)] == [Start(b, sector, write), PutRing(b),
           BumpAvail(b)];
  }

  lemma SubmitFails(s: State, b: nat, sector: nat, write: bool) returns (t: State)
    requires Enabled(s, Start(b, sector, write)) && Alloc(s.free).NoRoom?
    ensures Run(s, [Start(b, sector, write)], t) && b < |t.reqs| && t.reqs[b].Starved? && MemoryOf(t) == MemoryOf(s)
            && t.num == s.num
  {
    hide Alloc, Low;
    t := Apply(s, Start(b, sector, write));
    EmptyRun(s);
    hide Run;
    RunMore(s, [], s, Start(b, sector, write));
    assert [] + [Start(b, sector, write)] == [Start(b, sector, write)];
  }

  /** Rolling back blanks only descriptors that were blank. */
  lemma BlankStays(s: State, desc: seq<Desc>, desc': seq<Desc>)
    requires Inv(s) && desc == s.desc && |desc'| == |desc|
    requires forall i :: 0 <= i < |desc| ==> desc'[i] == desc[i] || (i < |s.free| && s.free[i] && desc'[i] == Blank)
    ensures desc' == desc
  {
    hide CountFree, CountLive, Slot, Low, Alloc, ReqOk, PlaceOk;
    forall i: nat | i < |desc| ensures desc'[i] == desc[i] {
      assert DescOk(s, i);
    }
  }

  lemma FinishSteps(s: State, b: nat)
    requires Inv(s) && Enabled(s, Await(b)) && !s.disk[b]
    ensures var q, t := s.reqs[b], Apply(s, Await(b));
            && Sizes(s) && q.i0 < s.num && t.reqs[b].Idle? && t.num == s.num
            && FreeChain(s.free, s.desc, q.i0) == Freed(t.free, t.desc, true)
            && MemoryOf(t) == MemoryOf(s).(free := t.free, desc := t.desc, info := s.info[q.i0 := Nobody])
  {
    hide CountFree, CountLive, Slot, Low, Alloc, FreeChain, ReqOk, DescOk, PlaceOk, AvailOk, UsedOk;
    FinishReleases(s, b);
    FinishSound(s, b);
  }

  lemma FinishSound(s: State, b: nat)
    requires Inv(s) && b < |s.reqs| && s.reqs[b].Live?
    ensures ChainOk(s, b, s.reqs[b]) && FreeChain(s.free, s.desc, s.reqs[b].i0).ok
  {
    hide CountFree, CountLive, Slot, Low, Alloc, FreeChain, Progress, PlaceOk, AvailOk, UsedOk;
    var q := s.reqs[b];
    assert ReqOk(s, b);
    assert DescOk(s, q.i0) && DescOk(s, q.i1) && DescOk(s, q.i2);
    FreeChainFreesThree(s.free, s.desc, q.i0, q.i1, q.i2);
  }

  /** One Take step, in the driver's terms. */
  lemma TakeStep(t: State)
    requires Sizes(t) && t.lock.Handler? && !t.panicked && Low(t.seen) != Low(t.posted)
    ensures Enabled(t, Take)
    ensures var u, id := Apply(t, Take), t.used[Low(t.seen) % t.num];
            if id >= t.num || !t.status[id] || t.info[id].Nobody? || t.info[id].b >= |t.disk| then u.panicked
            else
              && Sizes(u) && u.lock.Handler? && !u.panicked && u.num == t.num
              && MemoryOf(u) == MemoryOf(t).(flags := t.disk[t.info[id].b := false],
                 usedSeen := Bump(Low(t.seen), 1, M))
  {
    LowNext(t.seen);
    hide Low;
  }

  // ---------------------------------------------------------------- the handler's loop

  /** The `j`th unseen used entry names a descriptor with status 0 and a buffer. */
  predicate Good(ring: seq<nat>, info: seq<Owner>, status: seq<bool>, buffers: nat, seen: nat, j: nat)
    requires |ring| == |info| == |status| > 0
  {
    var id := ring[SlotAt(seen, j, |ring|)];
    id < |info| && status[id] && info[id].Request? && info[id].b < buffers
  }

  ghost predicate AllGood(ring: seq<nat>, info: seq<Owner>, status: seq<bool>, buffers: nat, seen: nat, n: nat)
    requires |ring| == |info| == |status| > 0
  {
    forall j: nat :: j < n ==> Good(ring, info, status, buffers, seen, j)
  }

  /** Buffer `b` is the one named by the `j`th unseen entry. */
  predicate Names(ring: seq<nat>, info: seq<Owner>, seen: nat, j: nat, b: nat)
    requires |ring| == |info| > 0
  {
    var id := ring[SlotAt(seen, j, |ring|)];
    id < |info| && info[id] == Request(b)
  }

  ghost predicate Named(ring: seq<nat>, info: seq<Owner>, seen: nat, n: nat, b: nat)
    requires |ring| == |info| > 0
  {
    exists j: nat :: j < n && Names(ring, info, seen, j, b)
  }

  lemma NothingTaken(ring: seq<nat>, info: seq<Owner>, status: seq<bool>, buffers: nat, seen: nat)
    requires |ring| == |info| == |status| > 0
    ensures AllGood(ring, info, status, buffers, seen, 0)
    ensures forall b: nat :: !Named(ring, info, seen, 0, b)
  {
  }

  lemma BadEntry(ring: seq<nat>, info: seq<Owner>, status: seq<bool>, buffers: nat, seen: nat, c: nat, n: nat)
    requires |ring| == |info| == |status| > 0 && c < n && !Good(ring, info, status, buffers, seen, c)
    ensures !AllGood(ring, info, status, buffers, seen, n)
  {
  }

  lemma OneTaken(ring: seq<nat>, info: seq<Owner>, status: seq<bool>, buffers: nat, seen: nat, c: nat)
    requires |ring| == |info| == |status| > 0
    requires AllGood(ring, info, status, buffers, seen, c) && Good(ring, info, status, buffers, seen, c)
    ensures AllGood(ring, info, status, buffers, seen, c + 1)
    ensures forall b: nat :: Named(ring, info, seen, c + 1, b) <==>
              Named(ring, info, seen, c, b) || info[ring[SlotAt(seen, c, |ring|)]] == Request(b)
  {
    hide SlotAt;
    forall b: nat
      ensures Named(ring, info, seen, c + 1, b) <==>
        Named(ring, info, seen, c, b) || info[ring[SlotAt(seen, c, |ring|)]] == Request(b)
    {
      assert Names(ring, info, seen, c, b) <==> info[ring[SlotAt(seen, c, |ring|)]] == Request(b);
    }
  }

  lemma SlotIsMod(c: nat, num: nat)
    requires num > 0
    ensures SlotAt(c, 0, num) == c % num
  {
  }
}
