/**
  Which runs wake a reader: the exact steps that do, the repair that versions 1-4 make after a killed
  exit, and the run in which versions 5-8 do not.
*/
module PipeWakeups {
  import opened PipeProtocol

  // ---------------------------------------------------------------- a scan that starts will end

  /** The step begins wakeup(&pi->nread): a writer finds the ring full, the write end is closed, or
      pipewrite returns with its own test for the wakeup true. */
  predicate StartsScan(s: State, step: Step)
    requires Enabled(s, step)
  {
    var pc := s.procs[step.p].pc;
    match step
    case WBlock(_) => true
    case Acquire(_) => pc.call == Close(true)
    case WReturn(_, _) => s.disc.Eager? || (pc.need && pc.i > 0)
    case _ => false
  }

  predicate Scanning(pc: Pc) {
    pc.Waking? && pc.c.NRead?
  }

  /** A scan of &nread is started by exactly these steps and left by no step but its own end. */
  lemma ScanStepwise(s: State, step: Step, p: nat)
    requires Enabled(s, step) && p < |s.procs|
    ensures Scanning(s.procs[p].pc) && step != WakeEnd(p) ==> Scanning(Apply(s, step).procs[p].pc)
    ensures !Scanning(s.procs[p].pc) ==> (Scanning(Apply(s, step).procs[p].pc) <==> step.p == p && StartsScan(s, step))
  {
  }

  /** Nobody sleeps on &nread. */
  predicate NoReaderAsleep(s: State) {
    forall q :: 0 <= q < |s.procs| ==> !Sleeper(s.procs[q].pc, NRead)
  }

  /** A scan that is under way at the start of a run and no longer at its end was completed in between, and
      at that moment nobody slept on &nread. */
  lemma {:induction false} ScanCompletes(s: State, steps: seq<Step>, t: State, p: nat) returns (k: nat, u: State)
    requires Inv(s) && Run(s, steps, t) && p < |s.procs| && Scanning(s.procs[p].pc)
    requires p < |t.procs| ==> !Scanning(t.procs[p].pc)
    ensures k < |steps| && steps[k] == WakeEnd(p) && Run(s, steps[..k], u) && Enabled(u, WakeEnd(p))
    ensures var v := Apply(u, WakeEnd(p));
            Run(v, steps[k + 1..], t) && Inv(v) && NoReaderAsleep(v) && !v.missed && ReadersEntitled(v)
    decreases |steps|
  {
    hide Inv, Enabled, Apply, Scanning, NoReaderAsleep, ReadersEntitled;
    k, u := 0, s;
    if steps == [] {
      assert false;
    } else if steps[0] == WakeEnd(p) {
      StepKeepsInv(s, WakeEnd(p));
      ScanEnds(s, p);
      assert steps[..0] == [] && Run(s, [], s);
    } else {
      StepKeepsInv(s, steps[0]);
      ScanStepwise(s, steps[0], p);
      SameTable(s, steps[0]);
      k, u := ScanCompletes(Apply(s, steps[0]), steps[1..], t, p);
      assert steps[..k + 1][1..] == steps[1..][..k];
      assert steps[k + 2..] == steps[1..][k + 1..];
      k := k + 1;
    }
  }

  lemma SameTable(s: State, step: Step)
    requires Enabled(s, step)
    ensures |Apply(s, step).procs| == |s.procs| && Apply(s, step).disc == s.disc
  {
  }

  lemma ScanEnds(s: State, p: nat)
    requires Inv(s) && Enabled(s, WakeEnd(p)) && Scanning(s.procs[p].pc)
    ensures var v := Apply(s, WakeEnd(p)); NoReaderAsleep(v) && !v.missed && ReadersEntitled(v)
  {
    hide Inv;
    CompletedScanWakesAll(s, p);
  }

  /** Versions 1-4: whatever a killed exit left behind, the next pipewrite that comes to its normal return has,
      by the time it is back with its caller, completed a scan after which every reader is entitled again. */
  lemma EagerWriteRepairs(s0: State, before: seq<Step>, s: State, p: nat, fault: bool, steps: seq<Step>, t: State)
    returns (k: nat, u: State)
    requires Initial(s0) && s0.disc.Eager? && Run(s0, before, s) && Enabled(s, WReturn(p, fault))
    requires Run(Apply(s, WReturn(p, fault)), steps, t) && p < |t.procs| && t.procs[p].pc.Idle?
    ensures k < |steps| && steps[k] == WakeEnd(p)
    ensures Run(Apply(s, WReturn(p, fault)), steps[..k], u) && Enabled(u, WakeEnd(p))
    ensures var v := Apply(u, WakeEnd(p));
            Run(v, steps[k + 1..], t) && NoReaderAsleep(v) && !v.missed && ReadersEntitled(v)
  {
    hide Inv, Apply, Enabled, Run, NoReaderAsleep, ReadersEntitled;
    InitialInv(s0);
    RunKeepsInv(s0, before, s);
    RunKeepsDisc(s0, before, s);
    ReturnScans(s, p, fault);
    StepKeepsInv(s, WReturn(p, fault));
    k, u := ScanCompletes(Apply(s, WReturn(p, fault)), steps, t, p);
  }

  lemma InitialInv(s: State)
    requires Initial(s)
    ensures Inv(s)
  {
  }

  lemma {:induction false} RunKeepsDisc(s: State, steps: seq<Step>, t: State)
    requires Run(s, steps, t)
    ensures t.disc == s.disc && |t.procs| == |s.procs|
    decreases |steps|
  {
    hide Apply, Enabled;
    if steps != [] {
      SameTable(s, steps[0]);
      RunKeepsDisc(Apply(s, steps[0]), steps[1..], t);
    }
  }

  lemma ReturnScans(s: State, p: nat, fault: bool)
    requires s.disc.Eager? && Enabled(s, WReturn(p, fault))
    ensures p < |Apply(s, WReturn(p, fault)).procs| && Scanning(Apply(s, WReturn(p, fault)).procs[p].pc)
  {
  }

  // ---------------------------------------------------------------- what wakes a reader

  /** `q` sleeps on &nread in every state of the run. */
  ghost predicate AsleepThroughout(s: State, steps: seq<Step>, q: nat)
    decreases |steps|
  {
    && q < |s.procs| && Sleeper(s.procs[q].pc, NRead)
    && (steps == [] || (Enabled(s, steps[0]) && AsleepThroughout(Apply(s, steps[0]), steps[1..], q)))
  }

  ghost predicate NoScanStarts(s: State, steps: seq<Step>)
    decreases |steps|
  {
    steps == [] || (Enabled(s, steps[0]) && !StartsScan(s, steps[0]) && NoScanStarts(Apply(s, steps[0]), steps[1..]))
  }

  predicate NobodyScans(s: State) {
    forall p :: 0 <= p < |s.procs| ==> !Scanning(s.procs[p].pc)
  }

  lemma SleeperStays(s: State, step: Step, q: nat)
    requires Enabled(s, step) && NobodyScans(s) && q < |s.procs| && Sleeper(s.procs[q].pc, NRead) && step != Kill(q)
    ensures Sleeper(Apply(s, step).procs[q].pc, NRead)
  {
    assert !Scanning(s.procs[step.p].pc);
  }

  lemma ScannersStay(s: State, step: Step)
    requires Enabled(s, step) && NobodyScans(s) && !StartsScan(s, step)
    ensures NobodyScans(Apply(s, step))
  {
    hide Enabled, Apply, Scanning, StartsScan;
    SameTable(s, step);
    forall p | 0 <= p < |s.procs| ensures !Scanning(Apply(s, step).procs[p].pc) {
      ScanStepwise(s, step, p);
    }
  }

  lemma {:induction false} SilenceKeepsAsleep(s: State, steps: seq<Step>, t: State, q: nat)
    requires NobodyScans(s) && Run(s, steps, t) && NoScanStarts(s, steps)
    requires q < |s.procs| && Sleeper(s.procs[q].pc, NRead) && Kill(q) !in steps
    ensures AsleepThroughout(s, steps, q)
    decreases |steps|
  {
    hide Enabled, Apply, Sleeper, NobodyScans, StartsScan;
    if steps != [] {
      SleeperStays(s, steps[0], q);
      ScannersStay(s, steps[0]);
      SameTable(s, steps[0]);
      SilenceKeepsAsleep(Apply(s, steps[0]), steps[1..], t, q);
    }
  }

  /** Sleeping throughout, `q` sleeps after any part of the run. */
  lemma {:induction false} AsleepAt(s: State, steps: seq<Step>, q: nat, k: nat, u: State)
    requires AsleepThroughout(s, steps, q) && k <= |steps| && Run(s, steps[..k], u)
    ensures AsleepThroughout(u, steps[k..], q)
    decreases k
  {
    hide Enabled, Apply, Sleeper;
    if k == 0 {
      assert steps[..0] == [] && steps[0..] == steps;
    } else {
      assert steps[..k][1..] == steps[1..][..k - 1];
      AsleepAt(Apply(s, steps[0]), steps[1..], q, k - 1, u);
      assert steps[1..][k - 1..] == steps[k..];
    }
  }

  lemma {:induction false} AsleepMeansSilence(s: State, steps: seq<Step>, t: State, q: nat)
    requires Inv(s) && Run(s, steps, t) && NobodyScans(t) && AsleepThroughout(s, steps, q)
    ensures NoScanStarts(s, steps)
    decreases |steps|
  {
    hide Inv, Enabled, Apply, Sleeper, NobodyScans, StartsScan, Scanning, NoReaderAsleep;
    if steps != [] {
      var s1, p := Apply(s, steps[0]), steps[0].p;
      StepKeepsInv(s, steps[0]);
      AsleepMeansSilence(s1, steps[1..], t, q);
      if StartsScan(s, steps[0]) {
        StartedScans(s, steps[0]);
        RunKeepsDisc(s1, steps[1..], t);
        NotScanning(t, p);
        var k, u := ScanCompletes(s1, steps[1..], t, p);
        AsleepAt(s1, steps[1..], q, k, u);
        assert steps[1..][k..][0] == WakeEnd(p);
        var v := Apply(u, WakeEnd(p));
        NobodyAsleep(v, q);
      }
    }
  }

  lemma StartedScans(s: State, step: Step)
    requires Enabled(s, step) && StartsScan(s, step)
    ensures step.p < |Apply(s, step).procs| && Scanning(Apply(s, step).procs[step.p].pc)
  {
  }

  lemma NotScanning(s: State, p: nat)
    requires NobodyScans(s)
    ensures p < |s.procs| ==> !Scanning(s.procs[p].pc)
  {
  }

  lemma NobodyAsleep(s: State, q: nat)
    requires NoReaderAsleep(s)
    ensures !(q < |s.procs| && Sleeper(s.procs[q].pc, NRead))
  {
  }

  lemma LockFreeNobodyScans(s: State)
    requires Inv(s) && s.lock.Free?
    ensures NobodyScans(s)
  {
    forall p | 0 <= p < |s.procs| ensures !Scanning(s.procs[p].pc) {
      assert ProcOk(s, p);
    }
  }

  /** All versions: between two moments at which pi->lock is free, a sleeping reader that is not killed is woken
      if and only if some step of the run starts a scan: a writer with bytes left finds the ring full, the
      write end is closed, or pipewrite returns with `need_wakeup && i > 0` (in versions 1-4: at all). */
  lemma ReaderWokenExactly(s: State, steps: seq<Step>, t: State, q: nat)
    requires Inv(s) && s.lock.Free? && Run(s, steps, t) && t.lock.Free?
    requires q < |s.procs| && Sleeper(s.procs[q].pc, NRead) && Kill(q) !in steps
    ensures AsleepThroughout(s, steps, q) <==> NoScanStarts(s, steps)
  {
    hide Inv, Run, NoScanStarts, AsleepThroughout, NobodyScans, Sleeper;
    RunKeepsInv(s, steps, t);
    LockFreeNobodyScans(s);
    LockFreeNobodyScans(t);
    if NoScanStarts(s, steps) {
      SilenceKeepsAsleep(s, steps, t, q);
    }
    if AsleepThroughout(s, steps, q) {
      AsleepMeansSilence(s, steps, t, q);
    }
  }

  // ---------------------------------------------------------------- what versions 5-8 need to recover

  /** No scan of readers is under way or promised: no writer that will start one by itself. */
  predicate NoRescue(s: State) {
    s.disc.Lazy? && forall p :: 0 <= p < |s.procs| ==> Silent(s.procs[p].pc)
  }

  predicate Silent(pc: Pc) {
    && (pc.Waking? ==> pc.c.NWrite? && pc.after.ThenReturn?)
    && (pc.WLoop? ==> !pc.need)
    && (pc.Sleep? ==> pc.call.Read?)
  }

  /** The three ways out: a writer with bytes left finds the ring full, the write end is closed, or a writer
      takes the lock on an empty ring. */
  predicate Rescues(s: State, step: Step)
    requires Enabled(s, step)
  {
    || step.WBlock?
    || (step.Acquire? && s.procs[step.p].pc.call == Close(true))
    || (step.Acquire? && s.procs[step.p].pc.call.Write? && s.Empty())
  }

  ghost predicate NoRescueStep(s: State, steps: seq<Step>)
    decreases |steps|
  {
    steps == [] || (Enabled(s, steps[0]) && !Rescues(s, steps[0]) && NoRescueStep(Apply(s, steps[0]), steps[1..]))
  }

  lemma StaysSilent(s: State, step: Step)
    requires NoRescue(s) && Enabled(s, step) && !Rescues(s, step)
    ensures NoRescue(Apply(s, step)) && !StartsScan(s, step)
  {
    assert Silent(s.procs[step.p].pc);
    assert Silent(NextPc(s, step));
  }

  lemma {:induction false} WithoutRescueSilence(s: State, steps: seq<Step>, t: State)
    requires NoRescue(s) && Run(s, steps, t) && NoRescueStep(s, steps)
    ensures NoScanStarts(s, steps) && NoRescue(t)
    decreases |steps|
  {
    hide NoRescue, Apply, Enabled, Rescues, StartsScan;
    if steps != [] {
      StaysSilent(s, steps[0]);
      WithoutRescueSilence(Apply(s, steps[0]), steps[1..], t);
    }
  }

  /** Versions 5-8, once no wakeup of readers is under way or promised: a sleeping reader sleeps through every run
      in which nobody kills it and none of the three ways out is taken, however much is read and written. */
  lemma LazyNeedsRescue(s: State, steps: seq<Step>, t: State, q: nat)
    requires NoRescue(s) && Run(s, steps, t) && NoRescueStep(s, steps)
    requires q < |s.procs| && Sleeper(s.procs[q].pc, NRead) && Kill(q) !in steps
    ensures AsleepThroughout(s, steps, q)
  {
    hide Run, NoScanStarts, AsleepThroughout, NoRescueStep, Sleeper;
    WithoutRescueSilence(s, steps, t);
    assert NobodyScans(s) by {
      forall p | 0 <= p < |s.procs| ensures !Scanning(s.procs[p].pc) {
        assert Silent(s.procs[p].pc);
      }
    }
    SilenceKeepsAsleep(s, steps, t, q);
  }

  predicate Needy(pc: Pc) {
    !pc.Acquiring? && (pc.WLoop? ==> pc.need)
  }

  lemma {:induction false} NeedStays(s: State, steps: seq<Step>, t: State, p: nat)
    requires Run(s, steps, t) && p < |s.procs| && Needy(s.procs[p].pc) && forall call: Call :: Begin(p, call) !in steps
    ensures p < |t.procs| && Needy(t.procs[p].pc)
    decreases |steps|
  {
    hide Run;
    if steps != [] {
      RunTail(s, steps, t);
      NeedStep(s, steps[0], p);
      NeedStays(Apply(s, steps[0]), steps[1..], t, p);
    } else {
      RunNothing(s, t);
    }
  }

  lemma NeedStep(s: State, step: Step, p: nat)
    requires Enabled(s, step) && p < |s.procs| && Needy(s.procs[p].pc) && !(step.Begin? && step.p == p)
    ensures p < |Apply(s, step).procs| && Needy(Apply(s, step).procs[p].pc)
  {
  }

  lemma RunTail(s: State, steps: seq<Step>, t: State)
    requires Run(s, steps, t) && steps != []
    ensures Enabled(s, steps[0]) && Run(Apply(s, steps[0]), steps[1..], t)
  {
  }

  lemma RunNothing(s: State, t: State)
    requires Run(s, [], t)
    ensures s == t
  {
  }

  /** And each way out does wake the reader, once the scan it starts is over: the first two start it at once, the
      third when that call returns normally with bytes added (the -1 exit and a fault on the first byte do
      not). */
  lemma RescueStartsScan(s: State, step: Step, steps: seq<Step>, u: State, fault: bool)
    requires Enabled(s, step) && Rescues(s, step) && Run(Apply(s, step), steps, u)
    requires step.Acquire? && s.procs[step.p].pc.call.Write? ==>
               && (forall call: Call :: Begin(step.p, call) !in steps)
               && Enabled(u, WReturn(step.p, fault)) && u.procs[step.p].pc.i > 0
    ensures if step.Acquire? && s.procs[step.p].pc.call.Write? then StartsScan(u, WReturn(step.p, fault))
            else StartsScan(s, step)
  {
    if step.Acquire? && s.procs[step.p].pc.call.Write? {
      hide Run;
      NeedStays(Apply(s, step), steps, u, step.p);
    }
  }
}
