/**
  Versions 5-8 strand a reader: the run, for every capacity from 2 on, every number of processes from 3 on
  and every number of bytes left in the ring.
*/
module PipeStranded {
  import opened Machine
  import opened PipeProtocol
  import opened PipeWakeups

  lemma {:induction false} RunAppend(s: State, steps: seq<Step>, t: State, step: Step)
    requires Run(s, steps, t) && Enabled(t, step)
    ensures Run(s, steps + [step], Apply(t, step))
    decreases |steps|
  {
    if steps == [] {
      assert Run(Apply(s, step), [], Apply(t, step));
      assert (steps + [step])[1..] == [];
    } else {
      RunAppend(Apply(s, steps[0]), steps[1..], t, step);
      assert (steps + [step])[1..] == steps[1..] + [step];
    }
  }

  /** The chunk that one copyin of versions 2 and 4-8 moves: bounded by request, room and end of buffer. */
  function BulkChunk(s: State, want: nat): nat
    requires |s.ring| <= s.cap && s.cap > 0
  {
    Min(want, Min(s.cap - |s.ring|, s.cap - |s.accepted| % s.cap))
  }

  ghost predicate Leads(s: State, t: State) {
    exists steps :: Run(s, steps, t)
  }

  lemma Go(s: State, t: State, step: Step, u: State)
    requires Leads(s, t) && Enabled(t, step) && u == Apply(t, step)
    ensures Leads(s, u)
  {
    var steps :| Run(s, steps, t);
    RunAppend(s, steps, t, step);
  }

  /** State `b` with `p`, not killed, at `pc`. */
  function At(b: State, p: nat, pc: Pc): State
    requires p < |b.procs|
  {
    b.(procs := b.procs[p := Proc(pc, false)])
  }

  /** One step of `p` alone, with the rest of the table unchanged. */
  lemma GoAt(s: State, b: State, p: nat, pc: Pc, step: Step, b': State, pc': Pc)
    requires p < |b.procs| && Leads(s, At(b, p, pc)) && step.p == p && Enabled(At(b, p, pc), step)
    requires !step.WakeOne? && !step.Kill? && !step.Recycle?
    requires pc' == NextPc(At(b, p, pc), step)
    requires b' == NextPipe(At(b, p, pc), step).(procs := b.procs, lock := NextLock(b, p, pc, pc'))
    ensures Leads(s, At(b', p, pc'))
  {
    var t := At(b, p, pc);
    assert t.procs[p := Proc(pc', false)] == b.procs[p := Proc(pc', false)];
    Go(s, t, step, At(b', p, pc'));
  }

  /** A scan over processes none of which is inside sleep() changes nothing. */
  lemma {:induction false} ScanFindsNobody(s: State, b: State, p: nat, c: Chan, j: nat)
    requires p < |b.procs| && j <= |b.procs| && b.lock == HeldBy(p)
    requires Leads(s, At(b, p, Waking(c, j, ThenReturn)))
    requires forall q :: 0 <= q < |b.procs| ==> !b.procs[q].pc.Sleep?
    ensures Leads(s, At(b.(lock := Free, missed := b.missed && c.NWrite?), p, Idle))
    decreases |b.procs| - j
  {
    hide Leads;
    var pc := Waking(c, j, ThenReturn);
    if j == |b.procs| {
      GoAt(s, b, p, pc, WakeEnd(p), b.(lock := Free, missed := b.missed && c.NWrite?), Idle);
    } else {
      var t, u := At(b, p, pc), At(b, p, Waking(c, j + 1, ThenReturn));
      assert Apply(t, WakeOne(p)).procs == u.procs;
      Go(s, t, WakeOne(p), u);
      ScanFindsNobody(s, b, p, c, j + 1);
    }
  }

  /** The pipe is open, unlocked and `p` exists. */
  predicate Ready(b: State, p: nat) {
    p < |b.procs| && b.lock.Free? && b.readopen && b.writeopen
  }

  lemma WriteIntoEmpty(s: State, b: State, p: nat, x: byte)
    requires Ready(b, p) && Leads(s, At(b, p, Idle)) && b.ring == [] && b.cap >= 2 && !b.missed
    requires forall q :: 0 <= q < |b.procs| ==> !b.procs[q].pc.Sleep?
    ensures Leads(s, At(b.(ring := [x], accepted := b.accepted + [x]), p, Idle))
  {
    hide Leads;
    GoAt(s, b, p, Idle, Begin(p, Write([x])), b, Acquiring(Write([x])));
    var b1 := b.(lock := HeldBy(p));
    GoAt(s, b, p, Acquiring(Write([x])), Acquire(p), b1, WLoop([x], 0, true, false));
    var b2 := b1.(ring := [x], accepted := b.accepted + [x]);
    assert [x][0..1] == [x];
    GoAt(s, b1, p, WLoop([x], 0, true, false), WCopy(p, 1), b2, WLoop([x], 1, true, true));
    GoAt(s, b2, p, WLoop([x], 1, true, true), WReturn(p, false), b2, Waking(NRead, 0, ThenReturn));
    ScanFindsNobody(s, b2, p, NRead, 0);
  }

  lemma ReadOne(s: State, b: State, p: nat)
    requires Ready(b, p) && Leads(s, At(b, p, Idle)) && |b.ring| == 1 < b.cap && b.disc.Lazy? && !b.missed
    ensures Leads(s, At(b.(ring := [], delivered := b.delivered + b.ring), p, Idle))
  {
    hide Leads;
    GoAt(s, b, p, Idle, Begin(p, Read(1)), b, Acquiring(Read(1)));
    var b1 := b.(lock := HeldBy(p));
    GoAt(s, b, p, Acquiring(Read(1)), Acquire(p), b1, RLoop(1));
    GoAt(s, b1, p, RLoop(1), RTest(p), b1, RCopy(1, 0, false));
    var b2 := b1.(ring := [], delivered := b.delivered + b.ring);
    assert b.ring[..1] == b.ring && b.ring[1..] == [];
    GoAt(s, b1, p, RCopy(1, 0, false), RTake(p, 1), b2, RCopy(1, 1, false));
    GoAt(s, b2, p, RCopy(1, 1, false), RReturn(p, false), b2.(lock := Free), Idle);
  }

  lemma SleepRunsThrough(s: State, b: State, p: nat, call: Call, i: nat)
    requires p < |b.procs| && b.lock == HeldBy(p) && Leads(s, At(b, p, Sleep(call, i, Entering)))
    ensures Leads(s, At(b.(lock := Free), p, Sleep(call, i, Asleep)))
  {
    hide Leads;
    GoAt(s, b, p, Sleep(call, i, Entering), SleepOn(p), b, Sleep(call, i, Locked));
    var b1 := b.(lock := Free);
    GoAt(s, b, p, Sleep(call, i, Locked), SleepOn(p), b1, Sleep(call, i, Window));
    GoAt(s, b1, p, Sleep(call, i, Window), SleepOn(p), b1, Sleep(call, i, Committed));
    GoAt(s, b1, p, Sleep(call, i, Committed), SleepOn(p), b1, Sleep(call, i, Asleep));
  }

  lemma ReaderFallsAsleep(s: State, b: State, p: nat)
    requires Ready(b, p) && Leads(s, At(b, p, Idle)) && b.ring == []
    ensures Leads(s, At(b, p, Sleep(Read(1), 0, Asleep)))
  {
    hide Leads;
    GoAt(s, b, p, Idle, Begin(p, Read(1)), b, Acquiring(Read(1)));
    var b1 := b.(lock := HeldBy(p));
    GoAt(s, b, p, Acquiring(Read(1)), Acquire(p), b1, RLoop(1));
    GoAt(s, b1, p, RLoop(1), RTest(p), b1, Sleep(Read(1), 0, Entering));
    SleepRunsThrough(s, b1, p, Read(1), 0);
  }

  /** A writer whose first chunk stops at the end of the buffer is killed before its second. */
  lemma WriterKilledMidway(s: State, b: State, p: nat, x: byte)
    requires Ready(b, p) && Leads(s, At(b, p, Idle)) && b.ring == [] && b.cap >= 2 && BulkChunk(b, 2) == 1
    ensures Leads(s, b.(procs := b.procs[p := Proc(Idle, true)], ring := [x], accepted := b.accepted + [x],
            missed := true))
  {
    hide Leads;
    GoAt(s, b, p, Idle, Begin(p, Write([x, x])), b, Acquiring(Write([x, x])));
    var b1 := b.(lock := HeldBy(p));
    GoAt(s, b, p, Acquiring(Write([x, x])), Acquire(p), b1, WLoop([x, x], 0, true, false));
    var b2 := b1.(ring := [x], accepted := b.accepted + [x]);
    assert [x, x][0..1] == [x];
    var pc := WLoop([x, x], 1, true, true);
    GoAt(s, b1, p, WLoop([x, x], 0, true, false), WCopy(p, 1), b2, pc);
    var t := At(b2, p, pc);
    var u := b2.(procs := b.procs[p := Proc(pc, true)]);
    assert t.procs[p := Proc(pc, true)] == u.procs;
    Go(s, t, Kill(p), u);
    assert u.procs[p := Proc(Idle, true)] == b.procs[p := Proc(Idle, true)];
    Go(s, u, WExit(p), b.(procs := b.procs[p := Proc(Idle, true)], ring := [x], accepted := b.accepted + [x],
      missed := true));
  }

  /** Versions 5-8: a write that finds bytes in the ring and fits returns without any wakeup. */
  lemma LazyWriteIsSilent(s: State, b: State, p: nat, x: byte)
    requires Ready(b, p) && Leads(s, At(b, p, Idle)) && 0 < |b.ring| < b.cap && b.disc.Lazy? && BulkChunk(b, 1) == 1
    ensures Leads(s, At(b.(ring := b.ring + [x], accepted := b.accepted + [x]), p, Idle))
  {
    hide Leads;
    GoAt(s, b, p, Idle, Begin(p, Write([x])), b, Acquiring(Write([x])));
    var b1 := b.(lock := HeldBy(p));
    GoAt(s, b, p, Acquiring(Write([x])), Acquire(p), b1, WLoop([x], 0, false, false));
    var b2 := b1.(ring := b.ring + [x], accepted := b.accepted + [x]);
    assert [x][0..1] == [x];
    GoAt(s, b1, p, WLoop([x], 0, false, false), WCopy(p, 1), b2, WLoop([x], 1, false, true));
    GoAt(s, b2, p, WLoop([x], 1, false, true), WReturn(p, false), b2.(lock := Free), Idle);
  }

  function Copies(x: byte, n: nat): (r: seq<byte>)
    ensures |r| == n
  {
    seq(n, _ => x)
  }

  /** `b` after `n` more bytes went in and out again. */
  function Cycled(b: State, x: byte, n: nat): State {
    b.(accepted := b.accepted + Copies(x, n), delivered := b.delivered + Copies(x, n))
  }

  predicate AllIdle(b: State) {
    forall q :: 0 <= q < |b.procs| ==> b.procs[q] == Proc(Idle, false)
  }

  /** Single bytes written by process 1 and read by process 0 move the write position on. */
  lemma {:induction false} CycleBytes(s: State, b: State, x: byte, n: nat)
    requires Leads(s, b) && AllIdle(b) && |b.procs| >= 2 && Ready(b, 0) && b.ring == [] && b.cap >= 2 && b.disc.Lazy?
             && !b.missed
    ensures Leads(s, Cycled(b, x, n))
    decreases n
  {
    hide Leads;
    if n == 0 {
      assert b.accepted + Copies(x, 0) == b.accepted && b.delivered + Copies(x, 0) == b.delivered;
    } else {
      var c := Cycled(b, x, n - 1);
      CycleBytes(s, b, x, n - 1);
      assert c.procs[1 := Proc(Idle, false)] == c.procs && c.procs[0 := Proc(Idle, false)] == c.procs;
      WriteIntoEmpty(s, c, 1, x);
      var d := c.(ring := [x], accepted := c.accepted + [x]);
      ReadOne(s, d, 0);
      assert Copies(x, n - 1) + [x] == Copies(x, n);
      assert c.accepted + [x] == b.accepted + Copies(x, n) && c.delivered + [x] == b.delivered + Copies(x, n);
      assert d.(ring := [], delivered := d.delivered + d.ring) == Cycled(b, x, n);
    }
  }

  /** `b` with `n` more bytes in the ring. */
  function Filled(b: State, x: byte, n: nat): State {
    b.(ring := b.ring + Copies(x, n), accepted := b.accepted + Copies(x, n))
  }

  /** Process `p` adds single bytes, silently, up to a full ring. */
  lemma {:induction false} FillSilently(s: State, b: State, p: nat, x: byte, n: nat)
    requires Leads(s, b) && Ready(b, p) && b.procs[p] == Proc(Idle, false) && b.disc.Lazy? && 0 < |b.ring|
             && |b.ring| + n <= b.cap
    ensures Leads(s, Filled(b, x, n))
    decreases n
  {
    hide Leads;
    if n == 0 {
      assert b.ring + Copies(x, 0) == b.ring && b.accepted + Copies(x, 0) == b.accepted;
    } else {
      var c := Filled(b, x, n - 1);
      FillSilently(s, b, p, x, n - 1);
      assert c.procs[p := Proc(Idle, false)] == c.procs;
      LazyWriteIsSilent(s, c, p, x);
      assert Copies(x, n - 1) + [x] == Copies(x, n);
      assert c.(ring := c.ring + [x], accepted := c.accepted + [x]) == Filled(b, x, n);
    }
  }

  function Start(cap: nat, n: nat): State {
    State(cap, Lazy, seq(n, _ => Proc(Idle, false)), Free, [], [], [], true, true, false)
  }

  /** Process 0 asleep on &nread in a read of one byte, process 1 killed, nobody else inside. */
  predicate Stranded(t: State) {
    && |t.procs| >= 3 && t.procs[0].pc == Sleep(Read(1), 0, Asleep) && t.procs[1] == Proc(Idle, true)
    && forall q :: 2 <= q < |t.procs| ==> t.procs[q] == Proc(Idle, false)
  }

  /** For every capacity, any number of other processes and every `m` from 1 up to a full ring: a run in which a
      writer is killed between two chunks, later pipewrites add their bytes and return normally, and the
      reader sleeps on `m` bytes, with nobody left who would wake it. */
  lemma LazyReaderStranded(cap: nat, n: nat, m: nat, x: byte) returns (t: State)
    requires cap >= 2 && n >= 3 && 1 <= m <= cap
    ensures Initial(Start(cap, n)) && Leads(Start(cap, n), t)
    ensures t.lock.Free? && |t.ring| == m && t.missed && t.writeopen && Stranded(t) && NoRescue(t)
    ensures !ReadersEntitled(t)
  {
    var s := Start(cap, n);
    assert Run(s, [], s);
    assert Leads(s, s);
    hide Leads;
    CycleBytes(s, s, x, cap - 1);
    var b := Cycled(s, x, cap - 1);
    assert |b.accepted| == cap - 1;
    t := StrandingRun(s, b, x, m);
  }

  lemma StrandingRun(s: State, b: State, x: byte, m: nat) returns (t: State)
    requires Leads(s, b) && AllIdle(b) && |b.procs| >= 3 && Ready(b, 0) && b.ring == [] && b.cap >= 2 && b.disc.Lazy?
             && !b.missed
    requires |b.accepted| == b.cap - 1 && 1 <= m <= b.cap
    ensures Leads(s, t) && t.lock.Free? && |t.ring| == m && t.missed && t.writeopen && Stranded(t) && NoRescue(t)
            && !ReadersEntitled(t)
  {
    hide Leads;
    var idle := Proc(Idle, false);
    assert b.procs[0 := idle] == b.procs;
    ReaderFallsAsleep(s, b, 0);
    var b1 := At(b, 0, Sleep(Read(1), 0, Asleep));
    assert b1.procs[1 := idle] == b1.procs;
    LastSlot(b.cap);
    WriterKilledMidway(s, b1, 1, x);
    var b2 := b1.(procs := b1.procs[1 := Proc(Idle, true)], ring := [x], accepted := b1.accepted + [x], missed := true);
    FillSilently(s, b2, 2, x, m - 1);
    t := Filled(b2, x, m - 1);
    assert Sleeper(t.procs[0].pc, NRead);
  }

  lemma LastSlot(cap: nat)
    requires cap >= 2
    ensures (cap - 1) % cap == cap - 1
  {
  }
}
