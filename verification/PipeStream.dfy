/**
  The byte stream through the real ring: `data` and the wrapping 32-bit counters carried along every run of
  the pipe protocol.  A write chunk is stored at `nwrite % cap`, a read chunk is fetched from `nread % cap`,
  neither crossing the end of the buffer, as every version takes care of.
*/
module PipeStream {
  import opened Machine
  import opened PipeProtocol
  import opened PipeRing

  /** The fields of struct pipe; `entered` and `left` record what the copies stored and fetched. */
  datatype Ring = Ring(data: seq<byte>, nread: nat, nwrite: nat, entered: seq<byte>, left: seq<byte>)

  predicate Shape(c: Ring, cap: nat) {
    Capacity(cap) && |c.data| == cap && c.nread < W32 && c.nwrite < W32
  }

  function WriteSlot(c: Ring): nat
    requires |c.data| > 0
  {
    SlotAt(c.nwrite, 0, |c.data|)
  }

  function ReadSlot(c: Ring): nat
    requires |c.data| > 0
  {
    SlotAt(c.nread, 0, |c.data|)
  }

  predicate Counters(c: Ring) {
    0 < |c.data| <= W32 && c.nread < W32 && c.nwrite < W32
  }

  /** to_copy is at most till_wrap. */
  predicate Fits(c: Ring, step: Step)
    requires Counters(c)
  {
    && (step.WCopy? ==> WriteSlot(c) + step.k <= |c.data|)
    && (step.RTake? ==> ReadSlot(c) + step.k <= |c.data|)
  }

  /** What a step does to the ring: a copyin into it, a copyout from it, or nothing. */
  function Next(s: State, c: Ring, step: Step): (r: Ring)
    requires Enabled(s, step) && Counters(c) && Fits(c, step)
    ensures Counters(r)
  {
    match step
    case WCopy(p, k) =>
      var pc := s.procs[p].pc;
      var chunk := pc.src[pc.i..pc.i + k];
      c.(data := Spliced(c.data, WriteSlot(c), chunk), nwrite := Bump(c.nwrite, k, W32), entered := c.entered + chunk)
    case RTake(p, k) =>
      c.(nread := Bump(c.nread, k, W32), left := c.left + c.data[ReadSlot(c)..ReadSlot(c) + k])
    case _ => c
  }

  /** `d'` differs from the ring's data only where a chunk that fits the room behind `n` held bytes would go. */
  ghost predicate Scribbled(c: Ring, n: nat, d': seq<byte>)
    requires Counters(c)
  {
    |d'| == |c.data| && exists k: nat :: InRoom(c, n, k, d')
  }

  predicate InRoom(c: Ring, n: nat, k: nat, d': seq<byte>)
    requires Counters(c) && |d'| == |c.data|
  {
    && n + k <= |c.data| && WriteSlot(c) + k <= |c.data|
    && forall p :: 0 <= p < |c.data| && !(WriteSlot(c) <= p < WriteSlot(c) + k) ==> d'[p] == c.data[p]
  }

  /** The ring after the step: as `Next` says, except that a copyin that faults may have moved part of its chunk
      before pipewrite returns. */
  ghost predicate Stepped(s: State, c: Ring, step: Step, c': Ring)
    requires Enabled(s, step) && Counters(c) && Fits(c, step)
  {
    if step.WReturn? && step.fault then c' == c.(data := c'.data) && Scribbled(c, |s.ring|, c'.data)
    else c' == Next(s, c, step)
  }

  /** The protocol and the ring side by side. */
  ghost predicate RingRun(s: State, c: Ring, steps: seq<Step>, t: State, d: Ring)
    requires Counters(c)
    decreases |steps|
  {
    if steps == [] then s == t && c == d
    else
      && Enabled(s, steps[0]) && Fits(c, steps[0])
      && exists c' :: Stepped(s, c, steps[0], c') && Counters(c') && RingRun(Apply(s, steps[0]), c', steps[1..], t, d)
  }

  /** The bytes held from `nread` to `nwrite` are the protocol's ring. */
  ghost predicate Sim(s: State, c: Ring) {
    && Shape(c, s.cap) && PipeOk(s)
    && c.nwrite == Bump(c.nread, |s.ring|, W32) && Held(c.data, c.nread, |s.ring|) == s.ring
    && c.entered == s.accepted && c.left == s.delivered
  }

  lemma WriteKeepsSim(s: State, c: Ring, p: nat, k: nat)
    requires Sim(s, c) && Enabled(s, WCopy(p, k)) && Fits(c, WCopy(p, k))
    ensures Sim(Apply(s, WCopy(p, k)), Next(s, c, WCopy(p, k)))
  {
    WCopyConserves(s, p, k);
    hide SlotAt, DividesRange, Held, Spliced, Bump;
    var pc := s.procs[p].pc;
    StoredChunk(c.data, c.nread, |s.ring|, pc.src[pc.i..pc.i + k]);
  }

  /** A chunk stored at the write slot is appended to the held bytes. */
  lemma StoredChunk(d: seq<byte>, nread: nat, n: nat, chunk: seq<byte>)
    requires Capacity(|d|) && nread < W32 && n + |chunk| <= |d|
    requires SlotAt(Bump(nread, n, W32), 0, |d|) + |chunk| <= |d|
    ensures Held(Spliced(d, SlotAt(Bump(nread, n, W32), 0, |d|), chunk), nread, n + |chunk|) == Held(d, nread,
            n) + chunk
    ensures Bump(Bump(nread, n, W32), |chunk|, W32) == Bump(nread, n + |chunk|, W32)
  {
    hide SlotAt, DividesRange, Held, PutBytes, Spliced;
    PutBytesIsBlockCopy(d, Bump(nread, n, W32), chunk);
    SplicedIs(d, SlotAt(Bump(nread, n, W32), 0, |d|), chunk);
    PutBytesAppends(d, nread, n, chunk);
  }

  lemma SplicedIs(d: seq<byte>, at: nat, bytes: seq<byte>)
    requires at + |bytes| <= |d|
    ensures Spliced(d, at, bytes) == d[..at] + bytes + d[at + |bytes|..]
  {
  }

  lemma ReadKeepsSim(s: State, c: Ring, p: nat, k: nat)
    requires Sim(s, c) && Enabled(s, RTake(p, k)) && Fits(c, RTake(p, k))
    ensures Sim(Apply(s, RTake(p, k)), Next(s, c, RTake(p, k)))
  {
    RTakeConserves(s, p, k);
    hide SlotAt, DividesRange, Held;
    HeldChunk(c.data, c.nread, |s.ring|, k);
    HeldDrop(c.data, c.nread, |s.ring|, k);
    BumpTwice(c.nread, c.nread, k, |s.ring| - k);
  }

  lemma FaultKeepsSim(s: State, c: Ring, p: nat, c': Ring)
    requires Sim(s, c) && Enabled(s, WReturn(p, true)) && Counters(c) && Fits(c, WReturn(p, true))
    requires Stepped(s, c, WReturn(p, true), c')
    ensures Sim(Apply(s, WReturn(p, true)), c')
  {
    OtherStepsConserve(s, WReturn(p, true));
    hide SlotAt, DividesRange, Held, Bump;
    var k: nat :| InRoom(c, |s.ring|, k, c'.data);
    SlotFrom(c.nread, |s.ring|, 0, |c.data|);
    ScribbleInRoom(c.data, c'.data, c.nread, |s.ring|, k);
  }

  lemma StepKeepsSim(s: State, c: Ring, step: Step, c': Ring)
    requires Sim(s, c) && Enabled(s, step) && Counters(c) && Fits(c, step) && Stepped(s, c, step, c')
    ensures Sim(Apply(s, step), c')
  {
    match step
    case WCopy(p, k) => WriteKeepsSim(s, c, p, k);
    case RTake(p, k) => ReadKeepsSim(s, c, p, k);
    case WReturn(p, fault) =>
      if fault {
        FaultKeepsSim(s, c, p, c');
      } else {
        OtherStepsConserve(s, step);
      }
    case _ => OtherStepsConserve(s, step);
  }

  lemma {:induction false} RunKeepsSim(s: State, c: Ring, steps: seq<Step>, t: State, d: Ring)
    requires Sim(s, c) && Counters(c) && RingRun(s, c, steps, t, d)
    ensures Sim(t, d) && t.cap == s.cap
    decreases |steps|
  {
    hide Sim, Enabled, Apply, Next, Fits, Stepped, Counters;
    if steps != [] {
      var c' :| Stepped(s, c, steps[0], c') && Counters(c') && RingRun(Apply(s, steps[0]), c', steps[1..], t, d);
      StepKeepsSim(s, c, steps[0], c');
      SameCapacity(s, steps[0]);
      RunKeepsSim(Apply(s, steps[0]), c', steps[1..], t, d);
    }
  }

  lemma SameCapacity(s: State, step: Step)
    requires Enabled(s, step)
    ensures Apply(s, step).cap == s.cap
  {
  }

  /** The bytes between `nread` and `nwrite`. */
  function Contents(c: Ring, cap: nat): (r: seq<byte>)
    requires Shape(c, cap)
  {
    Held(c.data, c.nread, Dist(c.nread, c.nwrite, W32))
  }

  /** In every run of any number of readers and writers, from an empty pipe with its counters anywhere (0 after
      pipealloc), however often they wrap: what copyout fetched followed by what lies between nread and nwrite is
      what copyin stored, in order; there are never more than `cap` bytes; and the code's own tests, nwrite ==
      nread + cap and nread == nwrite on wrapping counters, are the protocol's full and empty. */
  lemma StreamConservation(s: State, c: Ring, steps: seq<Step>, t: State, d: Ring)
    requires Initial(s) && Shape(c, s.cap) && c.nread == c.nwrite && c.entered == c.left == []
    requires RingRun(s, c, steps, t, d)
    ensures Shape(d, s.cap) && d.entered == d.left + Contents(d, s.cap) && |Contents(d, s.cap)| <= s.cap
    ensures d.nwrite == Bump(d.nread, s.cap, W32) <==> t.Full()
    ensures d.nread == d.nwrite <==> t.Empty()
    ensures d.entered == t.accepted && d.left == t.delivered && Contents(d, s.cap) == t.ring
  {
    hide RingRun, SlotAt, DividesRange;
    assert Held(c.data, c.nread, 0) == [];
    RunKeepsSim(s, c, steps, t, d);
    DistOfBump(d.nread, |t.ring|);
    FullTest(d.nread, d.nwrite, s.cap);
  }

  lemma DistOfBump(c: nat, n: nat)
    requires c < W32 && n < W32
    ensures Dist(c, Bump(c, n, W32), W32) == n
  {
  }
}
