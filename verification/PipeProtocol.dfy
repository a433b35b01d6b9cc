/**
  The pipe's sleep/wakeup protocol as a state machine over every interleaving.

  Any number of processes call `pipewrite`, `piperead` and `pipeclose` on one pipe and may be
  killed at any moment.  One step is one critical section or one iteration of a kernel loop:
  taking or dropping `pi->lock`, one copied chunk, one entry of the `wakeup` scan, each of the
  stages of `sleep`.  `Eager` is the code of versions 1-4, `Lazy` that of versions 5-8.
*/
module PipeProtocol {
  import opened Machine

  datatype Discipline = Eager | Lazy

  datatype PipeLock = Free | HeldBy(owner: nat)

  datatype Chan = NRead | NWrite

  /** Progress through `sleep(chan, &pi->lock)`.
      `Entering`: called, holding only `pi->lock`.      `Locked`: `p->lock` taken as well.
      `Window`: `pi->lock` dropped, not yet SLEEPING.   `Committed`: SLEEPING, `p->lock` still held.
      `Asleep`: the scheduler dropped `p->lock`.        `Woken`: RUNNABLE, must retake `pi->lock`. */
  datatype Stage = Entering | Locked | Window | Committed | Asleep | Woken

  datatype Call = Write(src: seq<byte>) | Read(n: nat) | Close(writable: bool)

  /** What the caller of `wakeup` does when the scan is over. */
  datatype After = ThenSleep(src: seq<byte>, done: nat) | ThenReturn

  /** Where a process is.  In `WLoop`, `need` is the local need_wakeup and `copied` says that bytes
      were added since `pi->lock` was last taken; `i` counts the bytes already transferred. */
  datatype Pc =
    | Idle
    | Acquiring(call: Call)
    | WLoop(src: seq<byte>, i: nat, need: bool, copied: bool)
    | RLoop(n: nat)
    | RCopy(n: nat, i: nat, wasFull: bool)
    | Waking(c: Chan, j: nat, after: After)
    | Sleep(call: Call, i: nat, stage: Stage)

  datatype Proc = Proc(pc: Pc, killed: bool)

  /** `accepted` and `delivered` record the bytes that ever entered and left the ring.  `missed` is
      a history variable, read by no step: a writer returned -1 because it was killed, after adding
      bytes in that same lock hold, and neither a completed wakeup(&nread) nor an empty ring came since. */
  datatype State = State(
    cap: nat,
    disc: Discipline,
    procs: seq<Proc>,
    lock: PipeLock,
    ring: seq<byte>,
    accepted: seq<byte>,
    delivered: seq<byte>,
    readopen: bool,
    writeopen: bool,
    missed: bool)
  {
    predicate Empty() { |ring| == 0 }
    predicate Full() { |ring| == cap }
  }

  datatype Step =
    | Begin(p: nat, call: Call)
    | Recycle(p: nat)            // freeproc/allocproc: the slot serves a new process
    | Kill(p: nat)
    | Acquire(p: nat)            // take pi->lock on entry
    | Resume(p: nat)             // retake pi->lock at the end of sleep()
    | SleepOn(p: nat)            // next stage of sleep()
    | WakeOne(p: nat)            // one entry of the wakeup scan
    | WakeEnd(p: nat)
    | WExit(p: nat)              // readopen == 0 or killed: return -1
    | WBlock(p: nat)             // ring full
    | WCopy(p: nat, k: nat)      // one copyin of k bytes
    | WReturn(p: nat, fault: bool)
    | RTest(p: nat)              // the loop test `empty && writeopen`
    | RTake(p: nat, k: nat)      // one copyout of k bytes
    | RReturn(p: nat, fault: bool)

  predicate Dozing(stage: Stage) {
    stage.Window? || stage.Committed? || stage.Asleep?
  }

  /** `pc` sleeps, or has irrevocably decided to sleep, on channel `c`. */
  predicate Sleeper(pc: Pc, c: Chan) {
    pc.Sleep? && Dozing(pc.stage) && c == if pc.call.Read? then NRead else NWrite
  }

  predicate HoldsPipeLock(pc: Pc) {
    match pc
    case Idle | Acquiring(_) => false
    case Sleep(_, _, stage) => stage.Entering? || stage.Locked?
    case _ => true
  }

  /** `p->lock` is held across steps only inside sleep(). */
  predicate HoldsOwnLock(pc: Pc) {
    pc.Sleep? && (pc.stage.Locked? || pc.stage.Window? || pc.stage.Committed?)
  }

  predicate Enabled(s: State, step: Step) {
    step.p < |s.procs| &&
    var me := s.procs[step.p];
    var pc := me.pc;
    match step
    case Begin(_, _) => pc.Idle?
    case Recycle(_) => pc.Idle?
    case Kill(_) => !HoldsOwnLock(pc)
    case Acquire(_) => s.lock.Free? && pc.Acquiring?
    case Resume(_) => s.lock.Free? && pc.Sleep? && pc.stage.Woken? && !pc.call.Close?
    case SleepOn(_) => pc.Sleep? && !pc.stage.Asleep? && !pc.stage.Woken?
    case WakeOne(_) => pc.Waking? && pc.j < |s.procs| && (pc.j == step.p || !HoldsOwnLock(s.procs[pc.j].pc))
    case WakeEnd(_) => pc.Waking? && pc.j == |s.procs|
    case WExit(_) => pc.WLoop? && pc.i < |pc.src| && (!s.readopen || me.killed)
    case WBlock(_) => pc.WLoop? && pc.i < |pc.src| && s.readopen && !me.killed && s.Full()
    case WCopy(_, k) => pc.WLoop? && pc.i < |pc.src| && s.readopen && !me.killed && !s.Full()
                        && 1 <= k <= |pc.src| - pc.i && |s.ring| + k <= s.cap
    case WReturn(_, fault) => pc.WLoop? &&
                              (if fault then pc.i < |pc.src| && s.readopen && !me.killed && !s.Full()
                               else pc.i >= |pc.src|)
    case RTest(_) => pc.RLoop?
    case RTake(_, k) => pc.RCopy? && pc.i < pc.n && 1 <= k <= |s.ring| && pc.i + k <= pc.n
    case RReturn(_, fault) => pc.RCopy? && (fault || pc.i >= pc.n || s.Empty())
  }

  /** The body of the wakeup scan for one table entry. */
  function Wake(pr: Proc, c: Chan): Proc {
    if Sleeper(pr.pc, c) && pr.pc.stage.Asleep? then pr.(pc := pr.pc.(stage := Woken)) else pr
  }

  function NextStage(stage: Stage): Stage {
    match stage
    case Entering => Locked
    case Locked => Window
    case Window => Committed
    case _ => Asleep
  }

  /** Where the acting process goes next. */
  function NextPc(s: State, step: Step): Pc
    requires Enabled(s, step)
  {
    var pc := s.procs[step.p].pc;
    match step
    case Begin(_, call) => Acquiring(call)
    case Recycle(_) => Idle
    case Kill(_) => if pc.Sleep? && pc.stage.Asleep? then pc.(stage := Woken) else pc
    case Acquire(_) =>
      (match pc.call
       case Write(src) => WLoop(src, 0, s.Empty(), false)
       case Read(n) => RLoop(n)
       case Close(w) => Waking(if w then NRead else NWrite, 0, ThenReturn))
    case Resume(_) =>
      (match pc.call
       case Write(src) => WLoop(src, pc.i, true, false)
       case Read(n) => RLoop(n))
    case SleepOn(_) => pc.(stage := NextStage(pc.stage))
    case WakeOne(_) => pc.(j := pc.j + 1)
    case WakeEnd(_) =>
      (match pc.after
       case ThenSleep(src, i) => Sleep(Write(src), i, Entering)
       case ThenReturn => Idle)
    case WExit(_) => Idle
    case WBlock(_) => Waking(NRead, 0, ThenSleep(pc.src, pc.i))
    case WCopy(_, k) => WLoop(pc.src, pc.i + k, pc.need, true)
    case WReturn(_, _) => if s.disc.Eager? || (pc.need && pc.i > 0) then Waking(NRead, 0, ThenReturn) else Idle
    case RTest(_) =>
      if s.Empty() && s.writeopen then if s.procs[step.p].killed then Idle else Sleep(Read(pc.n), 0, Entering)
      else RCopy(pc.n, 0, s.Full())
    case RTake(_, k) => RCopy(pc.n, pc.i + k, pc.wasFull)
    case RReturn(_, _) => if s.disc.Eager? || (pc.wasFull && pc.i > 0) then Waking(NWrite, 0, ThenReturn) else Idle
  }

  /** What the step does to the pipe itself. */
  function NextPipe(s: State, step: Step): State
    requires Enabled(s, step)
  {
    var pc := s.procs[step.p].pc;
    match step
    case Acquire(p) =>
      if pc.call.Close? then
        s.(readopen := s.readopen && pc.call.writable, writeopen := s.writeopen && !pc.call.writable)
      else s
    case WakeEnd(_) => s.(missed := s.missed && pc.c.NWrite?)
    case WExit(_) => s.(missed := s.missed || pc.copied)
    case WCopy(_, k) =>
      var chunk := pc.src[pc.i..pc.i + k];
      s.(ring := s.ring + chunk, accepted := s.accepted + chunk)
    case RTake(_, k) =>
      s.(ring := s.ring[k..], delivered := s.delivered + s.ring[..k], missed := s.missed && k < |s.ring|)
    case _ => s
  }

  /** `pi->lock` follows the acting process: taken when it enters, dropped when it returns or dozes off. */
  function NextLock(s: State, p: nat, pc: Pc, pc': Pc): PipeLock {
    if HoldsPipeLock(pc') then HeldBy(p) else if HoldsPipeLock(pc) then Free else s.lock
  }

  function Apply(s: State, step: Step): State
    requires Enabled(s, step)
  {
    var p := step.p;
    var pc, pc' := s.procs[p].pc, NextPc(s, step);
    var procs := s.procs[p := Proc(pc', step.Kill? || (!step.Recycle? && s.procs[p].killed))];
    NextPipe(s, step).(
      lock := NextLock(s, p, pc, pc'),
      procs := if step.WakeOne? && pc.j != p then procs[pc.j := Wake(procs[pc.j], pc.c)] else procs)
  }

  /** pipealloc: an empty open pipe, nobody inside. */
  predicate Initial(s: State) {
    && s.cap > 0 && s.lock.Free? && s.ring == s.accepted == s.delivered == []
    && s.readopen && s.writeopen && !s.missed
    && forall p :: 0 <= p < |s.procs| ==> s.procs[p].pc.Idle?
  }

  ghost predicate Run(s: State, steps: seq<Step>, t: State)
    decreases |steps|
  {
    if steps == [] then s == t
    else Enabled(s, steps[0]) && Run(Apply(s, steps[0]), steps[1..], t)
  }

  // ---------------------------------------------------------------- the invariant

  /** What the code knows at each point, mostly because it holds `pi->lock`. */
  predicate LocalFacts(s: State, pc: Pc) {
    match pc
    case WLoop(src, i, need, copied) =>
      && i <= |src|
      && (if copied then i > 0 && s.readopen && !s.Empty() else s.Empty() ==> need)
    case RCopy(n, i, wasFull) => i <= n && (if i == 0 then wasFull == s.Full() else !s.Full())
    case Waking(c, j, after) =>
      j <= |s.procs| && (after.ThenSleep? ==> c == NRead && after.done <= |after.src| && s.Full() && s.readopen)
    case Sleep(call, i, stage) =>
      (match call
       case Write(src) => i <= |src| && (HoldsPipeLock(pc) ==> s.Full() && s.readopen)
       case Read(_) => HoldsPipeLock(pc) ==> s.Empty() && s.writeopen
       case Close(_) => false)
    case _ => true
  }

  function HolderPc(s: State): Pc {
    if s.lock.HeldBy? && s.lock.owner < |s.procs| then s.procs[s.lock.owner].pc else Idle
  }

  /** Why a process asleep on &nwrite may keep sleeping, or who is about to wake it. */
  predicate WriterCovered(s: State, holder: Pc, p: nat) {
    if holder.Waking? && holder.c.NWrite? then p >= holder.j
    else if holder.RCopy? then s.readopen && (s.Full() || (holder.i > 0 && (s.disc.Eager? || holder.wasFull)))
    else s.readopen && s.Full()
  }

  /** The same for a process asleep on &nread. */
  predicate ReaderCovered(s: State, holder: Pc, p: nat) {
    if holder.Waking? && holder.c.NRead? then p >= holder.j
    else if holder.Sleep? && holder.call.Write? then false
    else s.writeopen
         && (s.Empty() || s.missed || (holder.WLoop? && holder.copied && (s.disc.Eager? || holder.need)))
  }

  /** Everything the invariant says about one process. */
  predicate ProcOk(s: State, p: nat)
    requires p < |s.procs|
  {
    var pc := s.procs[p].pc;
    && (HoldsPipeLock(pc) <==> s.lock == HeldBy(p))
    && LocalFacts(s, pc)
    && (Sleeper(pc, NWrite) ==> WriterCovered(s, HolderPc(s), p))
    && (Sleeper(pc, NRead) ==> ReaderCovered(s, HolderPc(s), p))
  }

  predicate PipeOk(s: State) {
    && s.cap > 0 && |s.ring| <= s.cap
    && s.accepted == s.delivered + s.ring
    && (s.lock.HeldBy? ==> s.lock.owner < |s.procs|)
  }

  predicate Inv(s: State) {
    && PipeOk(s)
    && forall p :: 0 <= p < |s.procs| ==> ProcOk(s, p)
  }

  // ---------------------------------------------------------------- every step keeps it

  lemma BeginKeeps(s: State, p: nat, call: Call, q: nat)
    requires PipeOk(s) && Enabled(s, Begin(p, call)) && q < |s.procs| && ProcOk(s, p) && ProcOk(s, q)
    ensures ProcOk(Apply(s, Begin(p, call)), q)
  {
  }

  lemma RecycleKeeps(s: State, p: nat, q: nat)
    requires PipeOk(s) && Enabled(s, Recycle(p)) && q < |s.procs| && ProcOk(s, p) && ProcOk(s, q)
    ensures ProcOk(Apply(s, Recycle(p)), q)
  {
  }

  lemma KillKeeps(s: State, p: nat, q: nat)
    requires PipeOk(s) && Enabled(s, Kill(p)) && q < |s.procs| && ProcOk(s, p) && ProcOk(s, q)
    ensures ProcOk(Apply(s, Kill(p)), q)
  {
    assert HolderPc(Apply(s, Kill(p))) == HolderPc(s);
  }

  lemma AcquireWriteKeeps(s: State, p: nat, q: nat)
    requires PipeOk(s) && Enabled(s, Acquire(p)) && q < |s.procs| && ProcOk(s, p) && ProcOk(s, q)
    requires s.procs[p].pc.call.Write?
    ensures ProcOk(Apply(s, Acquire(p)), q)
  {
    assert HolderPc(s) == Idle;
  }

  lemma AcquireReadKeeps(s: State, p: nat, q: nat)
    requires PipeOk(s) && Enabled(s, Acquire(p)) && q < |s.procs| && ProcOk(s, p) && ProcOk(s, q)
    requires s.procs[p].pc.call.Read?
    ensures ProcOk(Apply(s, Acquire(p)), q)
  {
    assert HolderPc(s) == Idle;
  }

  lemma AcquireCloseKeeps(s: State, p: nat, q: nat)
    requires PipeOk(s) && Enabled(s, Acquire(p)) && q < |s.procs| && ProcOk(s, p) && ProcOk(s, q)
    requires s.procs[p].pc.call.Close?
    ensures ProcOk(Apply(s, Acquire(p)), q)
  {
    assert HolderPc(s) == Idle;
  }

  lemma ResumeWriteKeeps(s: State, p: nat, q: nat)
    requires PipeOk(s) && Enabled(s, Resume(p)) && q < |s.procs| && ProcOk(s, p) && ProcOk(s, q)
    requires s.procs[p].pc.call.Write?
    ensures ProcOk(Apply(s, Resume(p)), q)
  {
    assert HolderPc(s) == Idle;
  }

  lemma ResumeReadKeeps(s: State, p: nat, q: nat)
    requires PipeOk(s) && Enabled(s, Resume(p)) && q < |s.procs| && ProcOk(s, p) && ProcOk(s, q)
    requires s.procs[p].pc.call.Read?
    ensures ProcOk(Apply(s, Resume(p)), q)
  {
    assert HolderPc(s) == Idle;
  }

  lemma SleepOnKeeps(s: State, p: nat, q: nat)
    requires PipeOk(s) && Enabled(s, SleepOn(p)) && q < |s.procs| && ProcOk(s, p) && ProcOk(s, q)
    ensures ProcOk(Apply(s, SleepOn(p)), q)
  {
  }

  lemma WakeOneKeepsBystander(s: State, p: nat, q: nat)
    requires PipeOk(s) && Enabled(s, WakeOne(p)) && q < |s.procs| && ProcOk(s, p) && ProcOk(s, q)
    requires q == p || q != s.procs[p].pc.j
    ensures ProcOk(Apply(s, WakeOne(p)), q)
  {
    var pc, t := s.procs[p].pc, Apply(s, WakeOne(p));
    assert HolderPc(s) == pc && HolderPc(t) == pc.(j := pc.j + 1);
  }

  lemma WakeOneKeepsTarget(s: State, p: nat, q: nat)
    requires PipeOk(s) && Enabled(s, WakeOne(p)) && q < |s.procs| && ProcOk(s, p) && ProcOk(s, q)
    requires q == s.procs[p].pc.j != p
    ensures ProcOk(Apply(s, WakeOne(p)), q)
  {
    var pc, t := s.procs[p].pc, Apply(s, WakeOne(p));
    assert HolderPc(s) == pc && HolderPc(t) == pc.(j := pc.j + 1);
    assert t.procs[q] == Wake(s.procs[q], pc.c);
  }

  lemma WakeEndKeeps(s: State, p: nat, q: nat)
    requires PipeOk(s) && Enabled(s, WakeEnd(p)) && q < |s.procs| && ProcOk(s, p) && ProcOk(s, q)
    ensures ProcOk(Apply(s, WakeEnd(p)), q)
  {
  }

  lemma WExitKeeps(s: State, p: nat, q: nat)
    requires PipeOk(s) && Enabled(s, WExit(p)) && q < |s.procs| && ProcOk(s, p) && ProcOk(s, q)
    ensures ProcOk(Apply(s, WExit(p)), q)
  {
  }

  lemma WBlockKeeps(s: State, p: nat, q: nat)
    requires PipeOk(s) && Enabled(s, WBlock(p)) && q < |s.procs| && ProcOk(s, p) && ProcOk(s, q)
    ensures ProcOk(Apply(s, WBlock(p)), q)
  {
  }

  lemma WCopyKeeps(s: State, p: nat, k: nat, q: nat)
    requires PipeOk(s) && Enabled(s, WCopy(p, k)) && q < |s.procs| && ProcOk(s, p) && ProcOk(s, q)
    ensures ProcOk(Apply(s, WCopy(p, k)), q)
  {
  }

  lemma WReturnKeeps(s: State, p: nat, fault: bool, q: nat)
    requires PipeOk(s) && Enabled(s, WReturn(p, fault)) && q < |s.procs| && ProcOk(s, p) && ProcOk(s, q)
    ensures ProcOk(Apply(s, WReturn(p, fault)), q)
  {
    var t := Apply(s, WReturn(p, fault));
    assert HolderPc(s) == s.procs[p].pc;
    assert HolderPc(t) == if t.lock.HeldBy? then t.procs[p].pc else Idle;
  }

  lemma RTestKeeps(s: State, p: nat, q: nat)
    requires PipeOk(s) && Enabled(s, RTest(p)) && q < |s.procs| && ProcOk(s, p) && ProcOk(s, q)
    ensures ProcOk(Apply(s, RTest(p)), q)
  {
  }

  lemma RTakeKeeps(s: State, p: nat, k: nat, q: nat)
    requires PipeOk(s) && Enabled(s, RTake(p, k)) && q < |s.procs| && ProcOk(s, p) && ProcOk(s, q)
    ensures ProcOk(Apply(s, RTake(p, k)), q)
  {
  }

  lemma RReturnKeeps(s: State, p: nat, fault: bool, q: nat)
    requires PipeOk(s) && Enabled(s, RReturn(p, fault)) && q < |s.procs| && ProcOk(s, p) && ProcOk(s, q)
    ensures ProcOk(Apply(s, RReturn(p, fault)), q)
  {
    var t := Apply(s, RReturn(p, fault));
    assert HolderPc(s) == s.procs[p].pc;
    assert HolderPc(t) == if t.lock.HeldBy? then t.procs[p].pc else Idle;
  }

  lemma WCopyConserves(s: State, p: nat, k: nat)
    requires PipeOk(s) && Enabled(s, WCopy(p, k))
    ensures PipeOk(Apply(s, WCopy(p, k)))
  {
    var pc := s.procs[p].pc;
    var chunk := pc.src[pc.i..pc.i + k];
    assert (s.delivered + s.ring) + chunk == s.delivered + (s.ring + chunk);
  }

  lemma RTakeConserves(s: State, p: nat, k: nat)
    requires PipeOk(s) && Enabled(s, RTake(p, k))
    ensures PipeOk(Apply(s, RTake(p, k)))
  {
    assert s.delivered + s.ring == (s.delivered + s.ring[..k]) + s.ring[k..];
  }

  lemma OtherStepsConserve(s: State, step: Step)
    requires PipeOk(s) && Enabled(s, step) && !step.WCopy? && !step.RTake?
    ensures PipeOk(Apply(s, step))
  {
  }

  lemma StepKeepsPipeOk(s: State, step: Step)
    requires PipeOk(s) && Enabled(s, step)
    ensures PipeOk(Apply(s, step))
  {
    match step
    case RTake(p, k) => RTakeConserves(s, p, k);
    case WCopy(p, k) => WCopyConserves(s, p, k);
    case _ => OtherStepsConserve(s, step);
  }

  lemma StepKeepsProc(s: State, step: Step, q: nat)
    requires PipeOk(s) && Enabled(s, step) && q < |s.procs| && ProcOk(s, step.p) && ProcOk(s, q)
    ensures ProcOk(Apply(s, step), q)
  {
    match step
    case Begin(p, call) => BeginKeeps(s, p, call, q);
    case Recycle(p) => RecycleKeeps(s, p, q);
    case Kill(p) => KillKeeps(s, p, q);
    case Acquire(p) =>
      match s.procs[p].pc.call {
        case Write(_) => AcquireWriteKeeps(s, p, q);
        case Read(_) => AcquireReadKeeps(s, p, q);
        case Close(_) => AcquireCloseKeeps(s, p, q);
      }
    case Resume(p) =>
      match s.procs[p].pc.call {
        case Write(_) => ResumeWriteKeeps(s, p, q);
        case Read(_) => ResumeReadKeeps(s, p, q);
      }
    case SleepOn(p) => SleepOnKeeps(s, p, q);
    case WakeOne(p) =>
      if q == s.procs[p].pc.j != p { WakeOneKeepsTarget(s, p, q); } else { WakeOneKeepsBystander(s, p, q); }
    case WakeEnd(p) => WakeEndKeeps(s, p, q);
    case WExit(p) => WExitKeeps(s, p, q);
    case WBlock(p) => WBlockKeeps(s, p, q);
    case WCopy(p, k) => WCopyKeeps(s, p, k, q);
    case WReturn(p, fault) => WReturnKeeps(s, p, fault, q);
    case RTest(p) => RTestKeeps(s, p, q);
    case RTake(p, k) => RTakeKeeps(s, p, k, q);
    case RReturn(p, fault) => RReturnKeeps(s, p, fault, q);
  }

  lemma StepKeepsInv(s: State, step: Step)
    requires Inv(s) && Enabled(s, step)
    ensures Inv(Apply(s, step))
  {
    StepKeepsPipeOk(s, step);
    forall q | 0 <= q < |s.procs| ensures ProcOk(Apply(s, step), q) {
      StepKeepsProc(s, step, q);
    }
  }

  lemma {:induction false} RunKeepsInv(s: State, steps: seq<Step>, t: State)
    requires Inv(s) && Run(s, steps, t)
    ensures Inv(t)
    decreases |steps|
  {
    if steps != [] {
      StepKeepsInv(s, steps[0]);
      RunKeepsInv(Apply(s, steps[0]), steps[1..], t);
    }
  }

  // ---------------------------------------------------------------- the promises

  /** Nobody sleeps on &nwrite while there is room, or after the read end closed. */
  predicate WritersEntitled(s: State) {
    forall p :: 0 <= p < |s.procs| && Sleeper(s.procs[p].pc, NWrite) ==> s.Full() && s.readopen
  }

  /** Nobody sleeps on &nread while there are bytes, or after the write end closed. */
  predicate ReadersEntitled(s: State) {
    forall p :: 0 <= p < |s.procs| && Sleeper(s.procs[p].pc, NRead) ==> s.Empty() && s.writeopen
  }

  /** Writer side of the lazy wakeup: sound in every run of every version. */
  lemma LazyWakeupWriterSide(s: State, steps: seq<Step>, t: State)
    requires Initial(s) && Run(s, steps, t) && t.lock.Free?
    ensures WritersEntitled(t)
  {
    RunKeepsInv(s, steps, t);
    forall p | 0 <= p < |t.procs| && Sleeper(t.procs[p].pc, NWrite) ensures t.Full() && t.readopen {
      assert ProcOk(t, p);
    }
  }

  /** Reader side: sound as long as no writer took the killed exit after adding bytes (`missed`);
      even then, a reader never sleeps on a closed write end. */
  lemma LazyWakeupReaderSide(s: State, steps: seq<Step>, t: State)
    requires Initial(s) && Run(s, steps, t) && t.lock.Free?
    ensures !t.missed ==> ReadersEntitled(t)
    ensures forall p :: 0 <= p < |t.procs| && Sleeper(t.procs[p].pc, NRead) ==> t.writeopen
  {
    RunKeepsInv(s, steps, t);
    forall p | 0 <= p < |t.procs| && Sleeper(t.procs[p].pc, NRead)
      ensures t.writeopen && (t.Empty() || t.missed)
    {
      assert ProcOk(t, p);
    }
  }

  /** The exact condition under which the -1 exit of pipewrite strands a reader. */
  lemma KilledExitBreaksExactly(s: State, p: nat)
    requires Inv(s) && !s.missed && Enabled(s, WExit(p))
    ensures ReadersEntitled(Apply(s, WExit(p))) <==>
            !(s.procs[p].pc.copied && exists q :: 0 <= q < |s.procs| && Sleeper(s.procs[q].pc, NRead))
    ensures s.procs[p].pc.copied ==> s.procs[p].killed && s.readopen
  {
    var t := Apply(s, WExit(p));
    assert ProcOk(s, p);
    if s.procs[p].pc.copied {
      forall q | 0 <= q < |s.procs| && Sleeper(s.procs[q].pc, NRead) ensures !ReadersEntitled(t) {
        assert t.procs[q] == s.procs[q];
      }
    } else {
      forall q | 0 <= q < |t.procs| && Sleeper(t.procs[q].pc, NRead) ensures t.Empty() && t.writeopen {
        assert t.procs[q] == s.procs[q] && ProcOk(s, q);
      }
    }
  }

  /** Any completed scan leaves its channel empty, whatever happened before. */
  lemma CompletedScanWakesAll(s: State, p: nat)
    requires Inv(s) && Enabled(s, WakeEnd(p))
    ensures var t := Apply(s, WakeEnd(p)); var c := s.procs[p].pc.c;
            && (forall q :: 0 <= q < |t.procs| ==> !Sleeper(t.procs[q].pc, c))
            && (c == NRead ==> !t.missed && ReadersEntitled(t))
  {
    var t := Apply(s, WakeEnd(p));
    var c := s.procs[p].pc.c;
    assert ProcOk(s, p);
    forall q | 0 <= q < |t.procs| ensures !Sleeper(t.procs[q].pc, c) {
      assert ProcOk(s, q);
    }
  }
}
