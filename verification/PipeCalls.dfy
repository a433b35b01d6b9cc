/**
  What one call of pipewrite, piperead or pipeclose does, over every run of the pipe protocol.

  The history of a process is taken from the pipe itself: whatever the process's own steps add to the bytes
  that ever entered or left the ring, since the call began, however often it slept in between.
*/
module PipeCalls {
  import opened Machine
  import opened PipeProtocol

  /** The current or last call of a process: the bytes it put into the ring and took from it so far, the value it
      returned, and whether a copy faulted. */
  datatype Hist = Hist(call: Option<Call>, put: seq<byte>, got: seq<byte>, ret: Option<int>, fault: bool)

  const NoCall := Hist(None, [], [], None, false)

  /** The value that the call returns, settled by this step.  On a copyout that faults at once version 1 returns 0
      instead. */
  function Returned(s: State, step: Step): Option<int>
    requires Enabled(s, step)
  {
    var me := s.procs[step.p];
    match step
    case WExit(_) => Some(-1)
    case WReturn(_, _) => Some(me.pc.i)
    case RTest(_) => if s.Empty() && s.writeopen && me.killed then Some(-1) else None
    case RReturn(_, fault) => Some(if fault && me.pc.i == 0 then -1 else me.pc.i)
    case _ => None
  }

  predicate Faults(step: Step) {
    (step.WReturn? || step.RReturn?) && step.fault
  }

  /** What `now` has beyond `before`. */
  function Added(before: seq<byte>, now: seq<byte>): seq<byte> {
    if |before| <= |now| then now[|before|..] else []
  }

  /** The history of `p` after a step. */
  function Note(h: Hist, s: State, step: Step, p: nat): Hist
    requires Enabled(s, step)
  {
    if step.p != p || step.Kill? then h
    else
      match step
      case Begin(_, call) => Hist(Some(call), [], [], None, false)
      case Recycle(_) => NoCall
      case _ =>
        var t := Apply(s, step);
        Hist(h.call, h.put + Added(s.accepted, t.accepted), h.got + Added(s.delivered, t.delivered),
             if Returned(s, step).Some? then Returned(s, step) else h.ret, h.fault || Faults(step))
  }

  ghost function HistOf(s: State, steps: seq<Step>, p: nat, h: Hist): Hist
    decreases |steps|
  {
    if steps == [] || !Enabled(s, steps[0]) then h
    else HistOf(Apply(s, steps[0]), steps[1..], p, Note(h, s, steps[0], p))
  }

  // ---------------------------------------------------------------- the invariant

  /** Inside pipewrite(src) with `i` bytes done. */
  predicate Writing(h: Hist, src: seq<byte>, i: nat) {
    h == Hist(Some(Write(src)), h.put, [], None, false) && i <= |src| && h.put == src[..i]
  }

  predicate Reading(h: Hist, n: nat, i: nat) {
    h == Hist(Some(Read(n)), [], h.got, None, false) && i <= n && |h.got| == i
  }

  /** The call is over, its value settled. */
  predicate Over(s: State, me: Proc, h: Hist)
  {
    match h.call
    case None => h == NoCall
    case Some(Write(src)) =>
      && h.ret.Some? && h.got == [] && |h.put| <= |src| && h.put == src[..|h.put|]
      && (if h.ret.value == -1 then me.killed || !s.readopen else h.ret.value == |h.put| && (h.fault || h.put == src))
    case Some(Read(n)) =>
      && h.ret.Some? && h.put == [] && |h.got| <= n
      && (if h.ret.value == -1 then h.got == [] && (me.killed || h.fault) else h.ret.value == |h.got|)
      && (h.ret.value == 0 && n > 0 && !h.fault ==> !s.writeopen)
    case Some(Close(w)) =>
      h.put == h.got == [] && (if w then !s.writeopen else !s.readopen)
  }

  predicate CallOk(s: State, me: Proc, h: Hist) {
    match me.pc
    case Idle => Over(s, me, h)
    case Acquiring(call) => h == Hist(Some(call), [], [], None, false)
    case WLoop(src, i, _, _) => Writing(h, src, i)
    case RLoop(n) => Reading(h, n, 0)
    case RCopy(n, i, _) => Reading(h, n, i) && (i == 0 && s.Empty() ==> !s.writeopen)
    case Waking(_, _, ThenSleep(src, i)) => Writing(h, src, i)
    case Waking(_, _, ThenReturn) => Over(s, me, h) && h.call.Some?
    case Sleep(Write(src), i, _) => Writing(h, src, i)
    case Sleep(Read(n), _, _) => Reading(h, n, 0)
    case Sleep(Close(_), _, _) => false
  }

  /** What others can do to a process: wake it or kill it, and nothing to the ring while it holds the lock. */
  predicate Bystander(s: State, t: State, p: nat)
    requires p < |s.procs| && p < |t.procs|
  {
    var pc, pc' := s.procs[p].pc, t.procs[p].pc;
    && (pc' == pc || (pc.Sleep? && pc' == pc.(stage := Woken))) && (s.procs[p].killed ==> t.procs[p].killed)
    && (t.writeopen ==> s.writeopen) && (t.readopen ==> s.readopen) && (pc.RCopy? ==> t.ring == s.ring)
  }

  lemma OthersAreBystanders(s: State, step: Step, p: nat)
    requires Inv(s) && Enabled(s, step) && p < |s.procs| && (step.p != p || step.Kill?)
    ensures |Apply(s, step).procs| == |s.procs| && Bystander(s, Apply(s, step), p)
  {
    assert ProcOk(s, p) && ProcOk(s, step.p);
    hide ProcOk, PipeOk;
  }

  lemma BystanderKeepsCall(s: State, t: State, p: nat, h: Hist)
    requires p < |s.procs| && p < |t.procs| && Bystander(s, t, p) && CallOk(s, s.procs[p], h)
    ensures CallOk(t, t.procs[p], h)
  {
  }

  lemma CopyKeepsCall(s: State, step: Step, h: Hist)
    requires Enabled(s, step) && (step.WCopy? || step.RTake?) && CallOk(s, s.procs[step.p], h)
    ensures CallOk(Apply(s, step), Apply(s, step).procs[step.p], Note(h, s, step, step.p))
  {
    if step.WCopy? {
      var pc := s.procs[step.p].pc;
      assert pc.src[..pc.i] + pc.src[pc.i..pc.i + step.k] == pc.src[..pc.i + step.k];
    }
  }

  lemma WriteKeepsCall(s: State, step: Step, h: Hist)
    requires Enabled(s, step) && ProcOk(s, step.p) && (step.WExit? || step.WBlock? || step.WReturn?)
    requires CallOk(s, s.procs[step.p], h)
    ensures CallOk(Apply(s, step), Apply(s, step).procs[step.p], Note(h, s, step, step.p))
  {
    var pc := s.procs[step.p].pc;
    assert step.WReturn? && !step.fault ==> pc.src[..pc.i] == pc.src;
  }

  lemma ReadKeepsCall(s: State, step: Step, h: Hist)
    requires Enabled(s, step) && (step.RTest? || step.RReturn?) && CallOk(s, s.procs[step.p], h)
    ensures CallOk(Apply(s, step), Apply(s, step).procs[step.p], Note(h, s, step, step.p))
  {
  }

  lemma EnterKeepsCall(s: State, step: Step, h: Hist)
    requires Enabled(s, step) && (step.Begin? || step.Recycle? || step.Acquire? || step.Resume?)
    requires CallOk(s, s.procs[step.p], h)
    ensures CallOk(Apply(s, step), Apply(s, step).procs[step.p], Note(h, s, step, step.p))
  {
  }

  lemma WakeKeepsCall(s: State, step: Step, h: Hist)
    requires Enabled(s, step) && (step.SleepOn? || step.WakeOne? || step.WakeEnd?) && CallOk(s, s.procs[step.p], h)
    ensures CallOk(Apply(s, step), Apply(s, step).procs[step.p], Note(h, s, step, step.p))
  {
  }

  lemma NoteOther(h: Hist, s: State, step: Step, p: nat)
    requires Enabled(s, step) && (step.p != p || step.Kill?)
    ensures Note(h, s, step, p) == h
  {
  }

  lemma InvProc(s: State, step: Step)
    requires Inv(s) && Enabled(s, step)
    ensures step.p < |s.procs| && ProcOk(s, step.p)
  {
  }

  lemma StepKeepsCall(s: State, step: Step, p: nat, h: Hist)
    requires Inv(s) && Enabled(s, step) && p < |s.procs| && CallOk(s, s.procs[p], h)
    ensures p < |Apply(s, step).procs| && CallOk(Apply(s, step), Apply(s, step).procs[p], Note(h, s, step, p))
  {
    hide *;
    InvProc(s, step);
    SameProcs(s, step);
    if step.p != p || step.Kill? {
      OthersAreBystanders(s, step, p);
      BystanderKeepsCall(s, Apply(s, step), p, h);
      assert Note(h, s, step, p) == h by { NoteOther(h, s, step, p); }
    } else {
      match step
      case WCopy(_, _) | RTake(_, _) => CopyKeepsCall(s, step, h);
      case WExit(_) | WBlock(_) | WReturn(_, _) => WriteKeepsCall(s, step, h);
      case RTest(_) | RReturn(_, _) => ReadKeepsCall(s, step, h);
      case Begin(_, _) | Recycle(_) | Acquire(_) | Resume(_) => EnterKeepsCall(s, step, h);
      case SleepOn(_) | WakeOne(_) | WakeEnd(_) => WakeKeepsCall(s, step, h);
    }
  }

  lemma {:induction false} RunKeepsCall(s: State, steps: seq<Step>, t: State, p: nat, h: Hist)
    requires Inv(s) && Run(s, steps, t) && p < |s.procs| && CallOk(s, s.procs[p], h)
    ensures Inv(t) && p < |t.procs| && CallOk(t, t.procs[p], HistOf(s, steps, p, h))
    decreases |steps|
  {
    hide Inv, Enabled, Apply, CallOk, Note;
    if steps != [] {
      StepKeepsCall(s, steps[0], p, h);
      StepKeepsInv(s, steps[0]);
      RunKeepsCall(Apply(s, steps[0]), steps[1..], t, p, Note(h, s, steps[0], p));
    }
  }

  lemma SameProcs(s: State, step: Step)
    requires Enabled(s, step)
    ensures |Apply(s, step).procs| == |s.procs|
  {
  }

  // ---------------------------------------------------------------- what a call promises

  lemma InitialInv(s: State)
    requires Initial(s)
    ensures Inv(s) && forall p: nat :: p < |s.procs| ==> CallOk(s, s.procs[p], NoCall)
  {
  }

  /** What is known of a call at any moment: a write has put the beginning of its source, a read has taken at most what
      it asked for, and nobody else does either. */
  predicate SoFar(h: Hist) {
    match h.call
    case None => h == NoCall
    case Some(Write(src)) => h.got == [] && |h.put| <= |src| && h.put == src[..|h.put|]
    case Some(Read(n)) => h.put == [] && |h.got| <= n
    case Some(Close(_)) => h.put == h.got == []
  }

  lemma CallSoFar(s: State, me: Proc, h: Hist)
    requires CallOk(s, me, h)
    ensures SoFar(h) && (me.pc.Idle? ==> Over(s, me, h)) && (h.call == None ==> me.pc.Idle?)
  {
  }

  /** At any moment of any run, what a pipewrite has put into the ring, over any number of sleeps, is the beginning of
      its source, each byte once and in order; a piperead has taken at most what it asked for.  Once the call is back
      with its caller: a value of -1 means that the writer was killed or the read end closed, any other value is the
      number of bytes put, all of them unless a copyin faulted; a read returns what it got, -1 only if it got nothing
      and was killed or its copyout faulted, and 0 of more only if the write end is closed; and a pipeclose has
      closed its end. */
  lemma CallPromise(s: State, steps: seq<Step>, t: State, p: nat)
    requires Initial(s) && Run(s, steps, t) && p < |s.procs|
    ensures p < |t.procs| && SoFar(HistOf(s, steps, p, NoCall))
    ensures t.procs[p].pc.Idle? ==> Over(t, t.procs[p], HistOf(s, steps, p, NoCall))
    ensures HistOf(s, steps, p, NoCall).call == None ==> t.procs[p].pc.Idle?
  {
    hide *;
    InitialInv(s);
    RunKeepsCall(s, steps, t, p, NoCall);
    CallSoFar(t, t.procs[p], HistOf(s, steps, p, NoCall));
  }

  /** A write that returns without a fault has put all of its source; a read that does has got all it asked for or
      left the ring empty. */
  predicate InFull(t: State, step: Step, h: Hist) {
    match h.call
    case Some(Write(src)) => step.WReturn? && h.put == src && h.ret == Some(|src|)
    case Some(Read(n)) => step.RReturn? && h.ret == Some(|h.got|) && (|h.got| == n || t.Empty())
    case _ => false
  }

  lemma ReturnInFull(t: State, step: Step, h: Hist)
    requires Enabled(t, step) && (step.WReturn? || step.RReturn?) && !step.fault && CallOk(t, t.procs[step.p], h)
    requires Inv(t)
    ensures InFull(t, step, Note(h, t, step, step.p))
  {
    assert ProcOk(t, step.p);
    hide ProcOk, PipeOk;
    var pc := t.procs[step.p].pc;
    assert step.WReturn? ==> pc.src[..|pc.src|] == pc.src;
  }

  lemma ReturnsInFull(s: State, steps: seq<Step>, t: State, step: Step)
    requires Initial(s) && Run(s, steps, t) && Enabled(t, step) && (step.WReturn? || step.RReturn?) && !step.fault
    requires step.p < |s.procs|
    ensures InFull(t, step, Note(HistOf(s, steps, step.p, NoCall), t, step, step.p))
  {
    hide *;
    InitialInv(s);
    RunKeepsCall(s, steps, t, step.p, NoCall);
    ReturnInFull(t, step, HistOf(s, steps, step.p, NoCall));
  }

  /** Once the write end is closed it stays closed, and no reader goes to sleep any more. */
  lemma {:induction false} ClosedForGood(s: State, steps: seq<Step>, t: State, p: nat)
    requires Run(s, steps, t) && !s.writeopen && p < |t.procs| && Enabled(t, RTest(p))
    ensures !t.writeopen && Apply(t, RTest(p)).procs[p].pc.RCopy?
    decreases |steps|
  {
    if steps != [] {
      ClosedForGood(Apply(s, steps[0]), steps[1..], t, p);
    }
  }

  /** A kill reaches a process asleep in the pipe: it is awake at once and stays killed, and when it next has the lock
      it can do nothing but return -1: a writer with bytes left at once, a reader unless there is something to
      read or the write end is closed. */
  lemma KillReaches(s: State, p: nat)
    requires Inv(s) && p < |s.procs|
    ensures Enabled(s, Kill(p)) ==> var me := Apply(s, Kill(p)).procs[p];
            me.killed && !(me.pc.Sleep? && me.pc.stage.Asleep?)
    ensures s.procs[p].killed && s.procs[p].pc.WLoop? && s.procs[p].pc.i < |s.procs[p].pc.src| ==>
              && Enabled(s, WExit(p)) && !Enabled(s, WBlock(p)) && forall k :: !Enabled(s, WCopy(p, k))
    ensures s.procs[p].killed && s.procs[p].pc.RLoop? && s.Empty() && s.writeopen ==>
              Enabled(s, RTest(p)) && Apply(s, RTest(p)).procs[p].pc.Idle? && Returned(s, RTest(p)) == Some(-1)
  {
    assert ProcOk(s, p);
  }

  // ---------------------------------------------------------------- nobody is stuck

  /** Every process can go on, except where it has to wait: for pi->lock, for a wakeup, or, in the scan, for a process
      that is in the middle of sleep() and itself can go on. */
  lemma NeverStuck(s: State, p: nat)
    requires Inv(s) && p < |s.procs|
    ensures match s.procs[p].pc
            case Idle => forall call :: Enabled(s, Begin(p, call))
            case Acquiring(_) => s.lock.Free? ==> Enabled(s, Acquire(p))
            case WLoop(_, _, _, _) =>
              Enabled(s, WExit(p)) || Enabled(s, WBlock(p)) || Enabled(s, WCopy(p, 1)) || Enabled(s, WReturn(p, false))
            case RLoop(_) => Enabled(s, RTest(p))
            case RCopy(_, _, _) => Enabled(s, RTake(p, 1)) || Enabled(s, RReturn(p, false))
            case Waking(_, j, _) =>
              Enabled(s, WakeEnd(p)) || Enabled(s, WakeOne(p)) || (j < |s.procs| && j != p && Enabled(s, SleepOn(j)))
            case Sleep(_, _, stage) =>
              if stage.Asleep? then true else if stage.Woken? then s.lock.Free? ==> Enabled(s, Resume(p))
              else Enabled(s, SleepOn(p))
  {
    assert ProcOk(s, p);
    if s.procs[p].pc.Waking? && s.procs[p].pc.j < |s.procs| {
      assert ProcOk(s, s.procs[p].pc.j);
    }
  }

  /** An upper bound on the steps a process takes before it lets go of pi->lock. */
  function Work(pc: Pc, n: nat): int {
    match pc
    case WLoop(src, i, _, _) => (|src| - i) + n + 5
    case RLoop(m) => m + n + 6
    case RCopy(m, i, _) => (m - i) + n + 5
    case Waking(_, j, _) => (n - j) + 4
    case Sleep(_, _, stage) => if stage.Entering? then 2 else 1
    case _ => 0
  }

  /** Whoever holds pi->lock lets go of it after so many steps of its own. */
  lemma HolderLetsGo(s: State, step: Step)
    requires Inv(s) && Enabled(s, step) && !step.Kill? && s.lock == HeldBy(step.p)
    ensures var t := Apply(s, step);
            t.lock == HeldBy(step.p) ==>
              0 <= Work(t.procs[step.p].pc, |s.procs|) < Work(s.procs[step.p].pc, |s.procs|)
  {
    assert ProcOk(s, step.p);
    StepKeepsInv(s, step);
    assert ProcOk(Apply(s, step), step.p);
  }

  /** Nobody else takes it away or moves the holder. */
  lemma HolderUndisturbed(s: State, step: Step, p: nat)
    requires Inv(s) && Enabled(s, step) && s.lock == HeldBy(p) && p < |s.procs| && (step.p != p || step.Kill?)
    ensures Apply(s, step).lock == HeldBy(p) && p < |Apply(s, step).procs|
    ensures Apply(s, step).procs[p].pc == s.procs[p].pc
  {
    assert ProcOk(s, p) && ProcOk(s, step.p);
  }
}
