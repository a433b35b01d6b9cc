/**
  The scheduler of versions 1-5 on one CPU: the loop over the process table, one step at a time, with
  everything the running process and interrupts do to the table in between.
*/
module RoundRobin {
  import opened Machine

  /** The loop stands at entry `k`; `busy` while it has switched to that entry's process. */
  datatype State = State(proc: seq<ProcState>, k: nat, busy: bool)

  datatype Step =
    | Skip                                // entry k is not RUNNABLE
    | Dispatch                            // entry k is: switch to it
    | Yield | Sleep | Exit                // it gives the CPU back, and the loop goes on
    | Wakeup(j: nat)                      // wakeup or kkill, by the running process or an interrupt
    | Alloc(j: nat) | Fork(j: nat)        // kfork by the running process: allocproc, then RUNNABLE
    | Reap(j: nat)                        // freeproc

  predicate Ok(s: State) {
    && s.k < |s.proc|
    && forall j :: 0 <= j < |s.proc| ==> (s.proc[j].RUNNING? <==> s.busy && j == s.k)
  }

  predicate Enabled(s: State, step: Step) {
    && s.k < |s.proc|
    && match step
       case Skip => !s.busy && !s.proc[s.k].RUNNABLE?
       case Dispatch => !s.busy && s.proc[s.k].RUNNABLE?
       case Yield => s.busy
       case Sleep => s.busy
       case Exit => s.busy
       case Wakeup(j) => j < |s.proc| && s.proc[j].SLEEPING?
       case Alloc(j) => s.busy && j < |s.proc| && s.proc[j].UNUSED?
       case Fork(j) => s.busy && j < |s.proc| && s.proc[j].USED?
       case Reap(j) => s.busy && j < |s.proc| && (s.proc[j].ZOMBIE? || s.proc[j].USED?)
  }

  /** p++, and from the end of the table back to its start. */
  function After(k: nat, n: nat): (r: nat)
    requires k < n
    ensures r < n
  {
    if k + 1 == n then 0 else k + 1
  }

  function Apply(s: State, step: Step): State
    requires Enabled(s, step)
  {
    var next := After(s.k, |s.proc|);
    match step
    case Skip => s.(k := next)
    case Dispatch => State(s.proc[s.k := RUNNING], s.k, true)
    case Yield => State(s.proc[s.k := RUNNABLE], next, false)
    case Sleep => State(s.proc[s.k := SLEEPING], next, false)
    case Exit => State(s.proc[s.k := ZOMBIE], next, false)
    case Wakeup(j) => s.(proc := s.proc[j := RUNNABLE])
    case Alloc(j) => s.(proc := s.proc[j := USED])
    case Fork(j) => s.(proc := s.proc[j := RUNNABLE])
    case Reap(j) => s.(proc := s.proc[j := UNUSED])
  }

  ghost predicate Run(s: State, steps: seq<Step>, t: State)
    decreases |steps|
  {
    if steps == [] then s == t
    else Enabled(s, steps[0]) && Run(Apply(s, steps[0]), steps[1..], t)
  }

  /** How many times the run dispatches an entry other than `i`. */
  ghost function Others(s: State, steps: seq<Step>, i: nat): nat
    decreases |steps|
  {
    if steps == [] || !Enabled(s, steps[0]) then 0
    else Others(Apply(s, steps[0]), steps[1..], i) + if steps[0].Dispatch? && s.k != i then 1 else 0
  }

  /** How many entries the loop deals with in the run: those it skips and those it dispatches. */
  ghost function Moves(s: State, steps: seq<Step>): nat
    decreases |steps|
  {
    if steps == [] || !Enabled(s, steps[0]) then 0
    else Moves(Apply(s, steps[0]), steps[1..]) + if steps[0].Skip? || steps[0].Dispatch? then 1 else 0
  }

  /** The run does not dispatch entry `i`. */
  ghost predicate Passes(s: State, steps: seq<Step>, i: nat)
    decreases |steps|
  {
    steps == [] || (Enabled(s, steps[0]) && !(steps[0].Dispatch? && s.k == i)
      && Passes(Apply(s, steps[0]), steps[1..], i))
  }

  /** How many more entries the loop deals with before it comes to `i`. */
  function Left(s: State, i: nat): int
    requires s.k < |s.proc| && i < |s.proc|
  {
    Dist(s.k, i, |s.proc|) - if s.busy then 1 else 0
  }

  lemma StepKeepsOk(s: State, step: Step)
    requires Ok(s) && Enabled(s, step)
    ensures Ok(Apply(s, step)) && |Apply(s, step).proc| == |s.proc|
  {
  }

  /** On one CPU nothing but its own dispatch takes a RUNNABLE process out of that state, and the loop cannot pass it
      by: every entry it skips or dispatches brings it one closer. */
  lemma StepTowards(s: State, step: Step, i: nat)
    requires Ok(s) && Enabled(s, step) && i < |s.proc| && s.proc[i].RUNNABLE? && !(step.Dispatch? && s.k == i)
    ensures Apply(s, step).proc[i].RUNNABLE?
    ensures Left(Apply(s, step), i) == Left(s, i) - if step.Skip? || step.Dispatch? then 1 else 0
    ensures 0 <= Left(Apply(s, step), i)
  {
    assert s.busy ==> s.k != i;
  }

  lemma {:induction false} RunTowards(s: State, steps: seq<Step>, t: State, i: nat)
    requires Ok(s) && Run(s, steps, t) && Passes(s, steps, i) && i < |s.proc| && s.proc[i].RUNNABLE?
    ensures Ok(t) && |t.proc| == |s.proc| && t.proc[i].RUNNABLE?
    ensures 0 <= Left(t, i) == Left(s, i) - Moves(s, steps) && Others(s, steps, i) <= Moves(s, steps)
    decreases |steps|
  {
    hide Ok, Enabled, Apply;
    OkBound(s, i);
    if steps != [] {
      StepKeepsOk(s, steps[0]);
      StepTowards(s, steps[0], i);
      OkBound(Apply(s, steps[0]), i);
      RunTowards(Apply(s, steps[0]), steps[1..], t, i);
    }
  }

  lemma OkBound(s: State, i: nat)
    requires Ok(s) && i < |s.proc| && s.proc[i].RUNNABLE?
    ensures s.k < |s.proc| && 0 <= Left(s, i) < |s.proc|
  {
    assert s.busy ==> s.k != i;
  }

  /** The loop is never stuck: with its CPU it has an entry to skip or to dispatch, and the process that has the CPU
      can give it back in each of three ways.  At `i` it dispatches `i`. */
  lemma NeverStuck(s: State, i: nat)
    requires Ok(s) && i < |s.proc| && s.proc[i].RUNNABLE?
    ensures !s.busy ==> Enabled(s, Skip) || Enabled(s, Dispatch)
    ensures s.busy ==> forall step :: step == Yield || step == Sleep || step == Exit ==>
              Enabled(s, step) && !Apply(s, step).busy
    ensures !s.busy && Left(s, i) == 0 ==> Enabled(s, Dispatch) && !Enabled(s, Skip)
    ensures !s.busy && Left(s, i) == 0 ==> Apply(s, Dispatch).proc[i].RUNNING? && Apply(s, Dispatch).busy
  {
  }

  /** The entry a step is about. */
  function Subject(s: State, step: Step): nat {
    match step
    case Wakeup(j) => j
    case Alloc(j) => j
    case Fork(j) => j
    case Reap(j) => j
    case _ => s.k
  }

  /** Where each step takes the process it is about, from the only states in which it can happen. */
  predicate Lifeline(step: Step, st: ProcState, st': ProcState) {
    match st
    case UNUSED => step.Alloc? && st' == USED
    case USED => (step.Fork? && st' == RUNNABLE) || (step.Reap? && st' == UNUSED)
    case RUNNABLE => step.Dispatch? && st' == RUNNING
    case RUNNING =>
      (step.Yield? && st' == RUNNABLE) || (step.Sleep? && st' == SLEEPING) || (step.Exit? && st' == ZOMBIE)
    case SLEEPING => step.Wakeup? && st' == RUNNABLE
    case ZOMBIE => step.Reap? && st' == UNUSED
  }

  lemma StepOnProcess(s: State, step: Step, i: nat)
    requires Ok(s) && Enabled(s, step) && i < |s.proc|
    ensures var t := Apply(s, step);
            && |t.proc| == |s.proc|
            && if i == Subject(s, step) && !step.Skip? then Lifeline(step, s.proc[i], t.proc[i])
               else t.proc[i] == s.proc[i]
  {
  }

  lemma {:induction false} ParkedStays(s: State, steps: seq<Step>, t: State, i: nat)
    requires Ok(s) && Run(s, steps, t) && i < |s.proc| && Wakeup(i) !in steps && Reap(i) !in steps
    requires s.proc[i].SLEEPING? || s.proc[i].ZOMBIE?
    ensures i < |t.proc| && t.proc[i] == s.proc[i]
    decreases |steps|
  {
    if steps != [] {
      assert steps[0] in steps;
      StepKeepsOk(s, steps[0]);
      ParkedStays(Apply(s, steps[0]), steps[1..], t, i);
    }
  }

  /** A process that went to sleep stays asleep, and can be woken, until it is woken, and is then RUNNABLE; one that
      exited stays a zombie, and can be reaped by whoever runs, until it is reaped, and its entry is then free. */
  lemma GoneUntilCalled(s: State, step: Step, steps: seq<Step>, t: State)
    requires Ok(s) && Enabled(s, step) && (step.Sleep? || step.Exit?) && Run(Apply(s, step), steps, t)
    requires Wakeup(s.k) !in steps && Reap(s.k) !in steps
    ensures s.k < |t.proc| && !t.proc[s.k].RUNNABLE? && !t.proc[s.k].RUNNING? && t.k < |t.proc|
    ensures step.Sleep? ==> Enabled(t, Wakeup(s.k)) && Apply(t, Wakeup(s.k)).proc[s.k].RUNNABLE?
    ensures step.Exit? && t.busy ==> Enabled(t, Reap(s.k)) && Apply(t, Reap(s.k)).proc[s.k].UNUSED?
    ensures step.Exit? ==> !Enabled(t, Wakeup(s.k))
  {
    StepKeepsOk(s, step);
    ParkedStays(Apply(s, step), steps, t, s.k);
    RunKeepsOk(Apply(s, step), steps, t);
  }

  lemma {:induction false} RunKeepsOk(s: State, steps: seq<Step>, t: State)
    requires Ok(s) && Run(s, steps, t)
    ensures Ok(t)
    decreases |steps|
  {
    if steps != [] {
      StepKeepsOk(s, steps[0]);
      RunKeepsOk(Apply(s, steps[0]), steps[1..], t);
    }
  }

  /** Versions 1-5: wherever the loop stands and whatever happens, a RUNNABLE process stays RUNNABLE until it is
      dispatched.  Until then the loop deals with at most NPROC - 1 other entries, so it dispatches at most that many
      others; after exactly as many as lie before it, the next entry the loop deals with is this one. */
  lemma RoundRobinBound(s: State, steps: seq<Step>, t: State, i: nat)
    requires Ok(s) && Run(s, steps, t) && i < |s.proc| && s.proc[i].RUNNABLE? && Passes(s, steps, i)
    ensures |t.proc| == |s.proc| && t.proc[i].RUNNABLE? && s.k < |s.proc|
    ensures Others(s, steps, i) <= Moves(s, steps) <= Left(s, i) <= |s.proc| - 1
    ensures Moves(s, steps) == Left(s, i) && !t.busy ==> t.k == i && Enabled(t, Dispatch) && !Enabled(t, Skip)
  {
    hide Run, Passes, Others, Moves;
    RunTowards(s, steps, t, i);
    OkBound(s, i);
    NeverStuck(t, i);
  }

  /** The bound is reached: with every process runnable and the loop just past `i`, all others run first. */
  lemma {:induction false} BoundIsSharp(n: nat, m: nat) returns (steps: seq<Step>, t: State)
    requires n >= 1 && m <= n - 1
    ensures var s := State(seq(n, _ => RUNNABLE), 0, false);
            Ok(s) && Run(s, steps, t) && Passes(s, steps, n - 1) && Others(s, steps, n - 1) == m
    ensures t == State(seq(n, _ => RUNNABLE), m, false)
    decreases m
  {
    var s := State(seq(n, _ => RUNNABLE), 0, false);
    if m == 0 {
      steps, t := [], s;
    } else {
      var u;
      steps, u := BoundIsSharp(n, m - 1);
      var u1 := Apply(u, Dispatch);
      t := Apply(u1, Yield);
      assert t.proc == u.proc;
      RunMore(s, steps, u, Dispatch, n - 1);
      RunMore(s, steps + [Dispatch], u1, Yield, n - 1);
      steps := steps + [Dispatch] + [Yield];
    }
  }

  lemma {:induction false} RunMore(s: State, steps: seq<Step>, u: State, step: Step, i: nat)
    requires Run(s, steps, u) && Passes(s, steps, i) && Enabled(u, step) && !(step.Dispatch? && u.k == i)
    ensures Run(s, steps + [step], Apply(u, step)) && Passes(s, steps + [step], i)
    ensures Others(s, steps + [step], i) == Others(s, steps, i) + if step.Dispatch? then 1 else 0
    decreases |steps|
  {
    hide Enabled, Apply;
    if steps == [] {
      assert (steps + [step])[1..] == [];
    } else {
      RunMore(Apply(s, steps[0]), steps[1..], u, step, i);
      assert (steps + [step])[1..] == steps[1..] + [step];
    }
  }
}
