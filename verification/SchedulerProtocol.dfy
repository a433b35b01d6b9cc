/**
  The priority scheduler on any number of CPUs.

  One step is one access another CPU could notice.  Phase 1 of the scheduler reads state and priority of
  every entry without a lock: each read may return anything at all, which covers every stale value.
  The processes' own switches (yield, sleep, exit) and what others do to them (wakeup, kkill, fork,
  wait) happen under p->lock.  The round-robin scheduler of versions 1-5 takes the same steps from
  `Acquire` on, so everything proved here holds for it as well.
*/
module SchedulerProtocol {
  import opened Machine

  /** What a CPU is doing; `b` is the process table entry concerned. */
  datatype Cpu =
    | Scan(k: nat, best: int, bestPriority: int)   // phase 1, entries below k read
    | Held(b: nat)        // scheduler holds b's lock, before the double check
    | Launch(b: nat)      // switched to b, which still holds its lock
    | Running(b: nat)     // b runs, lock free
    | Grabbed(b: nat)     // b holds its lock, about to give up the CPU
    | Leaving(b: nat)     // b has changed its state and switches to the scheduler
    | Back(b: nat)        // scheduler again, c->proc cleared, lock still held

  /** `lock[p]` is the CPU holding p->lock or -1; `runner[p]` records which CPU last launched p, or -1. */
  datatype State = State(boost: nat, cpu: seq<Cpu>, proc: seq<ProcState>, priority: seq<int>, lock: seq<int>,
    runner: seq<int>)

  datatype Step =
    | Read(c: nat, state: ProcState, priority: int)   // phase 1 reads entry k, whatever it sees
    | Wait(c: nat)                                    // phase 1 found nothing: wfi
    | Acquire(c: nat) | Pass(c: nat) | Dispatch(c: nat)
    | Unlock(c: nat)                                  // the launched process releases its lock
    | Grab(c: nat)
    | Yield(c: nat) | Sleep(c: nat) | Exit(c: nat)
    | Return(c: nat) | Release(c: nat)
    | Wakeup(p: nat) | Kill(p: nat) | Alloc(p: nat) | Start(p: nat) | Free(p: nat)

  /** c->proc. */
  predicate Current(cpu: Cpu, p: nat) {
    (cpu.Launch? || cpu.Running? || cpu.Grabbed? || cpu.Leaving?) && cpu.b == p
  }

  predicate HoldsLock(cpu: Cpu, p: nat) {
    (cpu.Held? || cpu.Launch? || cpu.Grabbed? || cpu.Leaving? || cpu.Back?) && cpu.b == p
  }

  predicate Sizes(s: State) {
    |s.proc| == |s.priority| == |s.lock| == |s.runner|
  }

  predicate ByCpu(step: Step) {
    !step.Wakeup? && !step.Kill? && !step.Alloc? && !step.Start? && !step.Free?
  }

  predicate Enabled(s: State, step: Step) {
    && Sizes(s)
    && if ByCpu(step) then
         && step.c < |s.cpu|
         && var cpu := s.cpu[step.c];
            match step
            case Read(c, state, priority) => cpu.Scan? && cpu.k < |s.proc|
            case Wait(c) => cpu.Scan? && cpu.k >= |s.proc| && cpu.best < 0
            case Acquire(c) => cpu.Scan? && cpu.k >= |s.proc| && 0 <= cpu.best < |s.proc| && s.lock[cpu.best] == -1
            case Pass(c) => cpu.Held? && cpu.b < |s.proc| && !s.proc[cpu.b].RUNNABLE?
            case Dispatch(c) => cpu.Held? && cpu.b < |s.proc| && s.proc[cpu.b].RUNNABLE?
            case Unlock(c) => cpu.Launch? && cpu.b < |s.proc|
            case Grab(c) => cpu.Running? && cpu.b < |s.proc| && s.lock[cpu.b] == -1
            case Yield(c) => cpu.Grabbed? && cpu.b < |s.proc|
            case Sleep(c) => cpu.Grabbed? && cpu.b < |s.proc|
            case Exit(c) => cpu.Grabbed? && cpu.b < |s.proc|
            case Return(c) => cpu.Leaving? && cpu.b < |s.proc|
            case Release(c) => cpu.Back? && cpu.b < |s.proc|
       else
         && step.p < |s.proc| && s.lock[step.p] == -1
         && var st := s.proc[step.p];
            match step
            case Wakeup(p) => st.SLEEPING?
            case Kill(p) => st.SLEEPING?
            case Alloc(p) => st.UNUSED?
            case Start(p) => st.USED?
            case Free(p) => st.ZOMBIE? || st.USED?
  }

  const Top := Scan(0, -1, -1)

  function ApplyCpu(s: State, step: Step): State
    requires ByCpu(step) && Enabled(s, step)
  {
    var c := step.c;
    var cpu := s.cpu[c];
    match step
    case Read(_, state, priority) =>
      if state.RUNNABLE? && priority > cpu.bestPriority then s.(cpu := s.cpu[c := Scan(cpu.k + 1, cpu.k, priority)])
      else s.(cpu := s.cpu[c := Scan(cpu.k + 1, cpu.best, cpu.bestPriority)])
    case Wait(_) => s.(cpu := s.cpu[c := Top])
    case Acquire(_) => s.(cpu := s.cpu[c := Held(cpu.best)], lock := s.lock[cpu.best := c])
    case Pass(_) => s.(cpu := s.cpu[c := Top], lock := s.lock[cpu.b := -1])
    case Dispatch(_) =>
      s.(cpu := s.cpu[c := Launch(cpu.b)], proc := s.proc[cpu.b := RUNNING], runner := s.runner[cpu.b := c])
    case Unlock(_) => s.(cpu := s.cpu[c := Running(cpu.b)], lock := s.lock[cpu.b := -1])
    case Grab(_) => s.(cpu := s.cpu[c := Grabbed(cpu.b)], lock := s.lock[cpu.b := c])
    case Yield(_) =>
      s.(cpu := s.cpu[c := Leaving(cpu.b)], proc := s.proc[cpu.b := RUNNABLE],
         priority := s.priority[cpu.b := if s.priority[cpu.b] > 0 then s.priority[cpu.b] - 1 else s.priority[cpu.b]])
    case Sleep(_) => s.(cpu := s.cpu[c := Leaving(cpu.b)], proc := s.proc[cpu.b := SLEEPING])
    case Exit(_) => s.(cpu := s.cpu[c := Leaving(cpu.b)], proc := s.proc[cpu.b := ZOMBIE])
    case Return(_) => s.(cpu := s.cpu[c := Back(cpu.b)], runner := s.runner[cpu.b := -1])
    case Release(_) => s.(cpu := s.cpu[c := Top], lock := s.lock[cpu.b := -1])
  }

  function ApplyOther(s: State, step: Step): State
    requires !ByCpu(step) && Enabled(s, step)
  {
    var p := step.p;
    match step
    case Wakeup(_) => s.(proc := s.proc[p := RUNNABLE], priority := s.priority[p := s.boost])
    case Kill(_) => s.(proc := s.proc[p := RUNNABLE])
    case Alloc(_) => s.(proc := s.proc[p := USED], priority := s.priority[p := 0])
    case Start(_) => s.(proc := s.proc[p := RUNNABLE])
    case Free(_) => s.(proc := s.proc[p := UNUSED], priority := s.priority[p := 0])
  }

  function Apply(s: State, step: Step): State
    requires Enabled(s, step)
  {
    if ByCpu(step) then ApplyCpu(s, step) else ApplyOther(s, step)
  }

  predicate Initial(s: State) {
    && Sizes(s) && (forall c: nat :: c < |s.cpu| ==> s.cpu[c] == Top)
    && (forall p: nat :: p < |s.proc| ==>
         s.proc[p].UNUSED? && s.priority[p] == 0 && s.lock[p] == -1 && s.runner[p] == -1)
  }

  ghost predicate Run(s: State, steps: seq<Step>, t: State)
    decreases |steps|
  {
    if steps == [] then s == t
    else Enabled(s, steps[0]) && Run(Apply(s, steps[0]), steps[1..], t)
  }

  // ---------------------------------------------------------------- the invariant

  predicate CpuOk(s: State, c: nat)
    requires Sizes(s) && c < |s.cpu|
  {
    var cpu := s.cpu[c];
    && (cpu.Scan? ==> cpu.best < |s.proc|)
    && (!cpu.Scan? ==>
          && cpu.b < |s.proc|
          && (HoldsLock(cpu, cpu.b) ==> s.lock[cpu.b] == c)
          && (Current(cpu, cpu.b) ==> s.runner[cpu.b] == c)
          && (cpu.Launch? || cpu.Running? || cpu.Grabbed? ==> s.proc[cpu.b].RUNNING?)
          && (cpu.Leaving? ==> !s.proc[cpu.b].RUNNING?))
  }

  predicate ProcOk(s: State, p: nat)
    requires Sizes(s) && p < |s.proc|
  {
    && 0 <= s.priority[p] <= s.boost
    && (s.lock[p] != -1 ==> 0 <= s.lock[p] < |s.cpu| && HoldsLock(s.cpu[s.lock[p]], p))
    && (s.runner[p] != -1 ==> 0 <= s.runner[p] < |s.cpu| && Current(s.cpu[s.runner[p]], p))
    && (s.proc[p].RUNNING? ==> s.runner[p] != -1)
  }

  ghost predicate Inv(s: State) {
    && Sizes(s)
    && (forall c: nat :: c < |s.cpu| ==> CpuOk(s, c))
    && (forall p: nat :: p < |s.proc| ==> ProcOk(s, p))
  }

  lemma KnowCpu(s: State, c: nat)
    requires Inv(s) && c < |s.cpu|
    ensures CpuOk(s, c)
  {
  }

  lemma KnowProc(s: State, p: nat)
    requires Inv(s) && p < |s.proc|
    ensures ProcOk(s, p)
  {
  }

  lemma CpuStepKeeps(s: State, step: Step)
    requires Inv(s) && ByCpu(step) && Enabled(s, step)
    ensures Inv(ApplyCpu(s, step))
  {
    var s' := ApplyCpu(s, step);
    var c := step.c;
    KnowCpu(s, c);
    forall d: nat | d < |s.cpu| ensures CpuOk(s', d) {
      KnowCpu(s, d);
    }
    forall p: nat | p < |s.proc| ensures ProcOk(s', p) {
      KnowProc(s, p);
    }
  }

  lemma OtherStepKeeps(s: State, step: Step)
    requires Inv(s) && !ByCpu(step) && Enabled(s, step)
    ensures Inv(ApplyOther(s, step))
  {
    var s' := ApplyOther(s, step);
    KnowProc(s, step.p);
    forall d: nat | d < |s.cpu| ensures CpuOk(s', d) {
      KnowCpu(s, d);
    }
    forall p: nat | p < |s.proc| ensures ProcOk(s', p) {
      KnowProc(s, p);
    }
  }

  lemma InitialInv(s: State)
    requires Initial(s)
    ensures Inv(s)
  {
  }

  lemma {:induction false} RunKeepsInv(s: State, steps: seq<Step>, t: State)
    requires Inv(s) && Run(s, steps, t)
    ensures Inv(t)
    decreases |steps|
  {
    hide Inv, Enabled, ApplyCpu, ApplyOther;
    if steps != [] {
      if ByCpu(steps[0]) {
        CpuStepKeeps(s, steps[0]);
      } else {
        OtherStepKeeps(s, steps[0]);
      }
      RunKeepsInv(Apply(s, steps[0]), steps[1..], t);
    }
  }

  // ---------------------------------------------------------------- main results

  /** However stale the scan's reads are: no process is current on two CPUs. */
  lemma NeverOnTwoCpus(s: State, steps: seq<Step>, t: State, p: nat, c: nat, d: nat)
    requires Initial(s) && Run(s, steps, t) && c < |t.cpu| && d < |t.cpu|
    requires Current(t.cpu[c], p) && Current(t.cpu[d], p)
    ensures c == d
  {
    InitialInv(s);
    RunKeepsInv(s, steps, t);
    KnowCpu(t, c);
    KnowCpu(t, d);
  }

  /** A process whose lock is free is RUNNING exactly when some CPU has it as its current process, and
      priorities stay between PRIORITY_BASE and PRIORITY_BOOST. */
  lemma RunningIsCurrent(s: State, steps: seq<Step>, t: State, p: nat)
    requires Initial(s) && Run(s, steps, t) && p < |t.proc|
    ensures Sizes(t) && 0 <= t.priority[p] <= t.boost
    ensures t.lock[p] == -1 ==>
              (t.proc[p].RUNNING? <==> exists c: nat :: c < |t.cpu| && Current(t.cpu[c], p))
  {
    InitialInv(s);
    RunKeepsInv(s, steps, t);
    KnowProc(t, p);
    if t.lock[p] == -1 && t.proc[p].RUNNING? {
      assert Current(t.cpu[t.runner[p]], p);
    }
    forall c: nat | c < |t.cpu| && Current(t.cpu[c], p) && t.lock[p] == -1 ensures t.proc[p].RUNNING? {
      KnowCpu(t, c);
    }
  }

  // ---------------------------------------------------------------- the life of a process

  /** The step concerns process `p`: it is the one the CPU has in hand, or the one named. */
  predicate Concerns(s: State, step: Step, p: nat)
    requires Enabled(s, step)
  {
    if ByCpu(step) then !s.cpu[step.c].Scan? && s.cpu[step.c].b == p else step.p == p
  }

  /** The only steps that a process in each state can take or suffer, and where they lead.  A switch away from a RUNNING
      process costs it priority if it yields; waking, killing and starting make it RUNNABLE, waking at the boost. */
  predicate Lifeline(step: Step, st: ProcState, pr: int, st': ProcState, pr': int, boost: int) {
    match st
    case UNUSED => step.Alloc? && st' == USED && pr' == 0
    case USED => (step.Start? && st' == RUNNABLE && pr' == pr) || (step.Free? && st' == UNUSED && pr' == 0)
    case RUNNABLE => step.Dispatch? && st' == RUNNING && pr' == pr
    case RUNNING =>
      || (step.Yield? && st' == RUNNABLE && pr' == if pr > 0 then pr - 1 else pr)
      || (step.Sleep? && st' == SLEEPING && pr' == pr) || (step.Exit? && st' == ZOMBIE && pr' == pr)
    case SLEEPING => st' == RUNNABLE && ((step.Wakeup? && pr' == boost) || (step.Kill? && pr' == pr))
    case ZOMBIE => step.Free? && st' == UNUSED && pr' == 0
  }

  /** Steps that change the state of the process they concern. */
  predicate Changes(step: Step) {
    !ByCpu(step) || step.Dispatch? || step.Yield? || step.Sleep? || step.Exit?
  }

  lemma StepOnProcess(s: State, step: Step, p: nat)
    requires Inv(s) && Enabled(s, step) && p < |s.proc|
    ensures var t := Apply(s, step);
            && Sizes(t) && |t.proc| == |s.proc| && t.boost == s.boost
            && if Concerns(s, step, p) && Changes(step)
               then Lifeline(step, s.proc[p], s.priority[p], t.proc[p], t.priority[p], s.boost)
               else t.proc[p] == s.proc[p] && t.priority[p] == s.priority[p]
  {
    if ByCpu(step) {
      KnowCpu(s, step.c);
    }
  }

  /** The run has no step that changes process `p`. */
  ghost predicate LeavesAlone(s: State, steps: seq<Step>, p: nat)
    decreases |steps|
  {
    steps == [] || (Enabled(s, steps[0]) && !(Concerns(s, steps[0], p) && Changes(steps[0]))
                    && LeavesAlone(Apply(s, steps[0]), steps[1..], p))
  }

  lemma {:induction false} AloneStays(s: State, steps: seq<Step>, t: State, p: nat)
    requires Inv(s) && Run(s, steps, t) && p < |s.proc| && LeavesAlone(s, steps, p)
    ensures Inv(t) && Sizes(t) && |t.proc| == |s.proc| && t.boost == s.boost
    ensures Sizes(s) && t.proc[p] == s.proc[p] && t.priority[p] == s.priority[p]
    decreases |steps|
  {
    hide Enabled, Apply, Concerns, Changes, Lifeline, CpuOk, ProcOk;
    if steps != [] {
      StepOnProcess(s, steps[0], p);
      StepKeepsInv(s, steps[0]);
      AloneStays(Apply(s, steps[0]), steps[1..], t, p);
    }
  }

  lemma StepKeepsInv(s: State, step: Step)
    requires Inv(s) && Enabled(s, step)
    ensures Inv(Apply(s, step))
  {
    hide Inv, Enabled, ApplyCpu, ApplyOther;
    if ByCpu(step) {
      CpuStepKeeps(s, step);
    } else {
      OtherStepKeeps(s, step);
    }
  }

  /** A process that was woken is RUNNABLE at PRIORITY_BOOST until a CPU dispatches it, however long that takes; one
      that
      sleeps can be woken, and one that exited can be freed but not run, for as long as nothing else happens to it. */
  lemma NextOfLife(s: State, before: seq<Step>, u: State, step: Step, p: nat, steps: seq<Step>, t: State)
    requires Initial(s) && Run(s, before, u) && Enabled(u, step) && p < |u.proc| && Concerns(u, step, p)
    requires Run(Apply(u, step), steps, t) && LeavesAlone(Apply(u, step), steps, p)
    ensures Sizes(t) && p < |t.proc|
    ensures step.Wakeup? ==> t.proc[p] == RUNNABLE && t.priority[p] == t.boost
    ensures step.Sleep? ==> t.proc[p] == SLEEPING && (t.lock[p] == -1 ==> Enabled(t, Wakeup(p)))
    ensures step.Exit? ==> t.proc[p] == ZOMBIE && (t.lock[p] == -1 ==> Enabled(t, Free(p)) && !Enabled(t, Wakeup(p)))
    ensures step.Yield? || step.Start? || step.Kill? ==> t.proc[p] == RUNNABLE
  {
    InitialInv(s);
    RunKeepsInv(s, before, u);
    StepOnProcess(u, step, p);
    StepKeepsInv(u, step);
    hide Run, LeavesAlone, Inv, Apply;
    AloneStays(Apply(u, step), steps, t, p);
  }

  // ---------------------------------------------------------------- what the scan chooses

  /** What phase 1 of CPU `c` has read since it started, entry by entry. */
  ghost function Seen(s: State, steps: seq<Step>, c: nat, seen: seq<(ProcState, int)>): seq<(ProcState, int)>
    decreases |steps|
  {
    if steps == [] || !Enabled(s, steps[0]) then seen
    else
      var step := steps[0];
      var seen' := if !ByCpu(step) || step.c != c then seen
                   else if step.Read? then seen + [(step.state, step.priority)] else [];
      Seen(Apply(s, step), steps[1..], c, seen')
  }

  /** `best` is the first of the highest priority among the RUNNABLE entries, or -1 if there is none of at least 0. */
  predicate Chosen(seen: seq<(ProcState, int)>, best: int, bestPriority: int) {
    && -1 <= best < |seen| && bestPriority >= -1
    && (best < 0 ==> bestPriority == -1)
    && (best >= 0 ==> seen[best] == (RUNNABLE, bestPriority) && bestPriority >= 0)
    && (forall j :: 0 <= j < |seen| && seen[j].0.RUNNABLE? ==> seen[j].1 <= bestPriority)
    && (forall j :: 0 <= j < |seen| && j < best && seen[j].0.RUNNABLE? ==> seen[j].1 < bestPriority)
  }

  predicate ScanOk(s: State, c: nat, seen: seq<(ProcState, int)>)
    requires c < |s.cpu|
  {
    if s.cpu[c].Scan? then |seen| == s.cpu[c].k && Chosen(seen, s.cpu[c].best, s.cpu[c].bestPriority) else seen == []
  }

  lemma {:induction false} ScanIsRight(s: State, steps: seq<Step>, t: State, c: nat, seen: seq<(ProcState, int)>)
    requires Run(s, steps, t) && c < |s.cpu| && ScanOk(s, c, seen)
    ensures c < |t.cpu| && ScanOk(t, c, Seen(s, steps, c, seen))
    decreases |steps|
  {
    if steps != [] {
      var step := steps[0];
      var seen' := if !ByCpu(step) || step.c != c then seen
                   else if step.Read? then seen + [(step.state, step.priority)] else [];
      assert ScanOk(Apply(s, step), c, seen');
      ScanIsRight(Apply(s, step), steps[1..], t, c, seen');
    }
  }

  /** What a CPU acquires is what its own reads point to: the first entry of the highest priority among those it saw
      RUNNABLE; and it waits for an interrupt only if it saw none. */
  lemma ScanChooses(s: State, steps: seq<Step>, t: State, c: nat, step: Step)
    requires Initial(s) && Run(s, steps, t) && c < |t.cpu| && Enabled(t, step)
             && (step == Acquire(c) || step == Wait(c))
    requires c < |s.cpu|
    ensures var seen := Seen(s, steps, c, []);
            && |seen| >= |t.proc|
            && (step.Wait? ==> forall j :: 0 <= j < |seen| && seen[j].0.RUNNABLE? ==> seen[j].1 < 0)
            && (step.Acquire? ==> exists b: nat, pr ::
                 b < |seen| && Chosen(seen, b, pr) && Apply(t, step).cpu[c] == Held(b))
  {
    hide Run, Seen;
    ScanIsRight(s, steps, t, c, []);
  }

  // ---------------------------------------------------------------- nobody is stuck

  /** Every CPU can go on, except where it has to wait for the lock of a process. */
  lemma NeverStuck(s: State, c: nat)
    requires Inv(s) && c < |s.cpu|
    ensures match s.cpu[c]
            case Scan(k, best, _) =>
              || (k < |s.proc| && forall st, pr :: Enabled(s, Read(c, st, pr))) || Enabled(s, Wait(c))
              || Enabled(s, Acquire(c)) || (0 <= best < |s.proc| == |s.lock| && s.lock[best] != -1)
            case Held(_) => Enabled(s, Pass(c)) || Enabled(s, Dispatch(c))
            case Launch(_) => Enabled(s, Unlock(c))
            case Running(b) => Enabled(s, Grab(c)) || (b < |s.lock| && s.lock[b] != -1)
            case Grabbed(_) => Enabled(s, Yield(c)) && Enabled(s, Sleep(c)) && Enabled(s, Exit(c))
            case Leaving(_) => Enabled(s, Return(c))
            case Back(_) => Enabled(s, Release(c))
  {
    KnowCpu(s, c);
  }

  /** The round of a CPU: scan, lock, launch, run, lock again, leave, unlock, and from the start. */
  predicate NextPhase(step: Step, cpu: Cpu, cpu': Cpu) {
    match cpu
    case Scan(k, best, _) =>
      || (step.Read? && cpu'.Scan? && cpu'.k == k + 1) || (step.Wait? && cpu' == Top)
      || (step.Acquire? && best >= 0 && cpu' == Held(best))
    case Held(b) => (step.Pass? && cpu' == Top) || (step.Dispatch? && cpu' == Launch(b))
    case Launch(b) => step.Unlock? && cpu' == Running(b)
    case Running(b) => step.Grab? && cpu' == Grabbed(b)
    case Grabbed(b) => (step.Yield? || step.Sleep? || step.Exit?) && cpu' == Leaving(b)
    case Leaving(b) => step.Return? && cpu' == Back(b)
    case Back(_) => step.Release? && cpu' == Top
  }

  lemma CpuGoesRound(s: State, step: Step, c: nat)
    requires Enabled(s, step) && c < |s.cpu|
    ensures |Apply(s, step).cpu| == |s.cpu|
    ensures if ByCpu(step) && step.c == c then NextPhase(step, s.cpu[c], Apply(s, step).cpu[c])
            else Apply(s, step).cpu[c] == s.cpu[c]
  {
  }

  /** Steps a CPU takes until it lets go of the lock it holds. */
  function Work(cpu: Cpu): nat {
    match cpu
    case Grabbed(_) => 3
    case Held(_) | Leaving(_) => 2
    case Launch(_) | Back(_) => 1
    case _ => 0
  }

  /** Whoever holds the lock of a process lets go of it after at most three steps of its own, which nobody can hold up,
      and has no other process's lock. */
  lemma LocksComeFree(s: State, step: Step, p: nat)
    requires Inv(s) && Enabled(s, step) && p < |s.proc| && ByCpu(step)
    ensures Sizes(s) && (s.lock[p] == step.c ==> 1 <= Work(s.cpu[step.c]) <= 3)
    ensures s.lock[p] == step.c && Apply(s, step).lock[p] != -1 ==>
              Apply(s, step).lock[p] == step.c && Work(Apply(s, step).cpu[step.c]) < Work(s.cpu[step.c])
    ensures s.lock[p] == step.c ==> forall q: nat :: q < |s.proc| && s.lock[q] == step.c ==> q == p
  {
    KnowCpu(s, step.c);
    KnowProc(s, p);
    forall q: nat | q < |s.proc| && s.lock[q] == step.c && s.lock[p] == step.c ensures q == p {
      KnowProc(s, q);
    }
  }
}
