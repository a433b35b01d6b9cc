/**
  fork, exit, reparent and wait of any number of processes, interleaved in any order.

  One step is what happens between two lock operations another process could notice: every entry of the
  loops in kwait, reparent and wakeup is a step of its own, and `sleep` is split into taking p->lock,
  releasing wait_lock, and being SLEEPING.  A process table entry is named by its index.
*/
module ExitWait {

  /** What a process table entry is doing. */
  datatype Pc =
    | Unused
    | Embryo(forker: nat)             // allocated by `forker`'s kfork, not yet runnable
    | Run                             // anywhere outside the code modelled here
    | Forking(child: nat, adopted: bool)
    | WaitScan(k: nat, kids: bool)    // kwait, wait_lock held, entries below k looked at
    | WaitLocked                      // kwait's sleep: wait_lock and p->lock held
    | Committed                       // wait_lock released, p->lock held, not yet SLEEPING
    | Asleep                          // SLEEPING on its own entry
    | Woken                           // RUNNABLE, on its way back to wait_lock
    | ExitScan(k: nat)                // kexit: reparent's loop
    | ExitWakeInit(k: nat, j: nat)    // wakeup(initproc) for entry k, entries below j visited
    | ExitWake(j: nat)                // wakeup(p->parent)
    | ExitLocked                      // wait_lock and p->lock held
    | ExitZombie                      // ZOMBIE, both locks still held
    | Zombie(gone: bool)              // wait_lock released; `gone` once sched has released p->lock

  /** `parent` is -1 for none, `holder` the holder of wait_lock or -1; `exits` and `reaps` count, for each
      entry, how often a process became a zombie there and how often kwait freed one. */
  datatype State = State(init: nat, pc: seq<Pc>, parent: seq<int>, holder: int, exits: seq<nat>, reaps: seq<nat>)

  datatype Step =
    | ForkAlloc(p: nat, c: nat) | ForkAdopt(p: nat) | ForkStart(p: nat)
    | WaitStart(p: nat)
    | WaitSkip(p: nat) | WaitSee(p: nat) // one entry of kwait's scan: no child, a child still alive
    | Reap(p: nat, fault: bool)          // a zombie child; `fault`: the copyout of its status fails
    | WaitEnd(p: nat, killed: bool)      // after the scan: give up, or take p->lock to sleep
    | SleepRelease(p: nat) | SleepDone(p: nat) | Kill(p: nat)
    | ExitStart(p: nat)
    | GiveSkip(p: nat) | Give(p: nat) | GiveEnd(p: nat)   // reparent's loop
    | WakeInit(p: nat) | WakeInitEnd(p: nat)              // one entry of wakeup's loop, or its end
    | WakeParent(p: nat) | WakeParentEnd(p: nat)
    | BecomeZombie(p: nat) | ExitRelease(p: nat) | Leave(p: nat)

  /** p->state == ZOMBIE. */
  predicate IsZombie(pc: Pc) {
    pc.ExitZombie? || pc.Zombie?
  }

  /** p->lock is held across steps. */
  predicate Locked(pc: Pc) {
    pc.WaitLocked? || pc.Committed? || pc.ExitLocked? || pc.ExitZombie? || (pc.Zombie? && !pc.gone)
  }

  predicate HoldsWait(pc: Pc) {
    || pc.WaitScan? || pc.WaitLocked? || pc.ExitScan? || pc.ExitWakeInit? || pc.ExitWake? || pc.ExitLocked?
      || pc.ExitZombie?
  }

  /** Asleep in kwait, or past the point of no return. */
  predicate Sleepy(pc: Pc) {
    pc.Committed? || pc.Asleep?
  }

  /** Beyond reparent: has no children and gets none. */
  predicate Childless(pc: Pc) {
    || pc.Unused? || pc.Embryo? || pc.ExitWake? || pc.ExitLocked? || IsZombie(pc)
  }

  predicate Sizes(s: State) {
    && |s.parent| == |s.pc| == |s.exits| == |s.reaps| && s.init < |s.pc|
    && forall c: nat :: c < |s.parent| ==> -1 <= s.parent[c] < |s.pc|
  }

  predicate Enabled(s: State, step: Step) {
    && Sizes(s) && step.p < |s.pc|
    && var pc := s.pc[step.p];
       var free := s.holder == -1;
       match step
       case ForkAlloc(p, c) => pc.Run? && c < |s.pc| && s.pc[c].Unused?
       case ForkAdopt(p) => pc.Forking? && !pc.adopted && free && pc.child < |s.pc|
       case ForkStart(p) => pc.Forking? && pc.adopted && pc.child < |s.pc|
       case WaitStart(p) => (pc.Run? || pc.Woken?) && free
       case WaitSkip(p) => pc.WaitScan? && pc.k < |s.pc| && s.parent[pc.k] != p
       case WaitSee(p) => pc.WaitScan? && pc.k < |s.pc| && s.parent[pc.k] == p && !Locked(s.pc[pc.k])
         && !IsZombie(s.pc[pc.k])
       case Reap(p, fault) => pc.WaitScan? && pc.k < |s.pc| && s.parent[pc.k] == p && !Locked(s.pc[pc.k])
         && IsZombie(s.pc[pc.k])
       case WaitEnd(p, killed) => pc.WaitScan? && pc.k >= |s.pc|
       case SleepRelease(p) => pc.WaitLocked?
       case SleepDone(p) => pc.Committed?
       case Kill(p) => pc.Asleep?
       case ExitStart(p) => pc.Run? && free && p != s.init
       case GiveSkip(p) => pc.ExitScan? && pc.k < |s.pc| && s.parent[pc.k] != p
       case Give(p) => pc.ExitScan? && pc.k < |s.pc| && s.parent[pc.k] == p
       case GiveEnd(p) => pc.ExitScan? && pc.k >= |s.pc|
       case WakeInit(p) => pc.ExitWakeInit? && pc.j < |s.pc| && (pc.j != p ==> !Locked(s.pc[pc.j]))
       case WakeInitEnd(p) => pc.ExitWakeInit? && pc.j >= |s.pc|
       case WakeParent(p) => pc.ExitWake? && pc.j < |s.pc| && (pc.j != p ==> !Locked(s.pc[pc.j]))
       case WakeParentEnd(p) => pc.ExitWake? && pc.j >= |s.pc|
       case BecomeZombie(p) => pc.ExitLocked?
       case ExitRelease(p) => pc.ExitZombie?
       case Leave(p) => pc == Zombie(false)
  }

  /** wakeup's visit to entry `j`, waking sleepers on `chan`; the caller `p` passes over itself. */
  function Visit(pcs: seq<Pc>, p: nat, j: nat, chan: int): (r: seq<Pc>)
    requires j < |pcs|
    ensures |r| == |pcs|
  {
    if j != p && pcs[j].Asleep? && j == chan then pcs[j := Woken] else pcs
  }

  function Apply(s: State, step: Step): State
    requires Enabled(s, step)
  {
    var p := step.p;
    var pc := s.pc[p];
    match step
    case ForkAlloc(_, c) => s.(pc := s.pc[p := Forking(c, false)][c := Embryo(p)])
    case ForkAdopt(_) => s.(pc := s.pc[p := Forking(pc.child, true)], parent := s.parent[pc.child := p])
    case ForkStart(_) => s.(pc := s.pc[p := Run][pc.child := Run])
    case WaitStart(_) => s.(pc := s.pc[p := WaitScan(0, false)], holder := p)
    case WaitSkip(_) => s.(pc := s.pc[p := WaitScan(pc.k + 1, pc.kids)])
    case WaitSee(_) => s.(pc := s.pc[p := WaitScan(pc.k + 1, true)])
    case Reap(_, fault) =>
      if fault then s.(pc := s.pc[p := Run], holder := -1)
      else s.(pc := s.pc[p := Run][pc.k := Unused], parent := s.parent[pc.k := -1],
              reaps := s.reaps[pc.k := s.reaps[pc.k] + 1], holder := -1)
    case WaitEnd(_, killed) =>
      if !pc.kids || killed then s.(pc := s.pc[p := Run], holder := -1) else s.(pc := s.pc[p := WaitLocked])
    case SleepRelease(_) => s.(pc := s.pc[p := Committed], holder := -1)
    case SleepDone(_) => s.(pc := s.pc[p := Asleep])
    case Kill(_) => s.(pc := s.pc[p := Woken])
    case ExitStart(_) => s.(pc := s.pc[p := ExitScan(0)], holder := p)
    case GiveSkip(_) => s.(pc := s.pc[p := ExitScan(pc.k + 1)])
    case Give(_) => s.(pc := s.pc[p := ExitWakeInit(pc.k, 0)], parent := s.parent[pc.k := s.init])
    case GiveEnd(_) => s.(pc := s.pc[p := ExitWake(0)])
    case WakeInit(_) => s.(pc := Visit(s.pc, p, pc.j, s.init)[p := ExitWakeInit(pc.k, pc.j + 1)])
    case WakeInitEnd(_) => s.(pc := s.pc[p := ExitScan(pc.k + 1)])
    case WakeParent(_) => s.(pc := Visit(s.pc, p, pc.j, s.parent[p])[p := ExitWake(pc.j + 1)])
    case WakeParentEnd(_) => s.(pc := s.pc[p := ExitLocked])
    case BecomeZombie(_) => s.(pc := s.pc[p := ExitZombie], exits := s.exits[p := s.exits[p] + 1])
    case ExitRelease(_) => s.(pc := s.pc[p := Zombie(false)], holder := -1)
    case Leave(_) => s.(pc := s.pc[p := Zombie(true)])
  }

  /** Only the first process exists. */
  predicate Initial(s: State) {
    && Sizes(s) && s.holder == -1 && s.pc[s.init].Run?
    && (forall c: nat :: c < |s.pc| ==>
          s.parent[c] == -1 && s.exits[c] == s.reaps[c] && (c != s.init ==> s.pc[c].Unused?))
  }

  ghost predicate Runs(s: State, steps: seq<Step>, t: State)
    decreases |steps|
  {
    if steps == [] then s == t
    else Enabled(s, steps[0]) && Runs(Apply(s, steps[0]), steps[1..], t)
  }

  // ---------------------------------------------------------------- the invariant

  /** The exit in progress has just given init a child and has yet to visit init. */
  predicate Owed(s: State) {
    0 <= s.holder < |s.pc| && s.pc[s.holder].ExitWakeInit? && s.pc[s.holder].j <= s.init
  }

  /** Entry `c`, seen as a possible child of `p`. */
  predicate ChildOk(s: State, p: nat, c: nat)
    requires Sizes(s) && p < |s.pc| && c < |s.pc|
  {
    var pc := s.pc[p];
    s.parent[c] == p ==>
      && !Childless(pc) && !s.pc[c].Unused?
      && (pc.WaitScan? && c < pc.k ==> pc.kids && !IsZombie(s.pc[c]))
      && (pc.WaitLocked? ==> !IsZombie(s.pc[c]))
      && (pc.ExitScan? ==> c >= pc.k)
      && (pc.ExitWakeInit? ==> c > pc.k)
      && (Sleepy(pc) && IsZombie(s.pc[c]) ==> p == s.init && Owed(s))
  }

  /** Entry `p` by itself. */
  predicate ProcOk(s: State, p: nat)
    requires Sizes(s) && p < |s.pc|
  {
    var pc := s.pc[p];
    && (HoldsWait(pc) <==> s.holder == p)
    && s.exits[p] == s.reaps[p] + (if IsZombie(pc) then 1 else 0)
    && (pc.Embryo? ==> pc.forker < |s.pc| && s.pc[pc.forker].Forking? && s.pc[pc.forker].child == p)
    && (pc.Forking? ==>
          pc.child < |s.pc| && s.pc[pc.child] == Embryo(p) && s.parent[pc.child] == (if pc.adopted then p else -1))
    && (pc.ExitWakeInit? && pc.j > s.init ==> !Sleepy(s.pc[s.init]))
    && (s.parent[p] >= 0 ==>
          && (pc.ExitWake? && pc.j > s.parent[p] ==> !Sleepy(s.pc[s.parent[p]]))
          && (pc.ExitLocked? || pc.ExitZombie? ==> !Sleepy(s.pc[s.parent[p]])))
    && (p == s.init ==> !Childless(pc) && !pc.ExitScan? && !pc.ExitWakeInit?)
    && (pc.Unused? ==> s.parent[p] == -1)
    && (p != s.init && !pc.Unused? && !pc.Embryo? ==> s.parent[p] >= 0)
  }

  ghost predicate Inv(s: State) {
    && Sizes(s) && -1 <= s.holder < |s.pc|
    && (forall p: nat :: p < |s.pc| ==> ProcOk(s, p))
    && (forall p: nat, c: nat :: p < |s.pc| && c < |s.pc| ==> ChildOk(s, p, c))
  }

  lemma Know(s: State, p: nat)
    requires Inv(s) && p < |s.pc|
    ensures Sizes(s) && -1 <= s.holder < |s.pc| && ProcOk(s, p)
  {
  }

  lemma KnowChild(s: State, p: nat, c: nat)
    requires Inv(s) && p < |s.pc| && c < |s.pc|
    ensures Sizes(s) && ChildOk(s, p, c)
  {
  }

  lemma Assembled(s: State)
    requires Sizes(s) && -1 <= s.holder < |s.pc| && (forall p: nat :: p < |s.pc| ==> ProcOk(s, p))
    requires forall p: nat, c: nat :: p < |s.pc| && c < |s.pc| ==> ChildOk(s, p, c)
    ensures Inv(s)
  {
  }

  lemma ForkAllocProcs(s: State, p: nat, c: nat)
    requires Inv(s) && Enabled(s, ForkAlloc(p, c))
    ensures var s' := Apply(s, ForkAlloc(p, c));
            Sizes(s') && -1 <= s'.holder < |s'.pc| && forall q: nat :: q < |s'.pc| ==> ProcOk(s', q)
  {
    hide Inv;
    Know(s, p);
    Know(s, c);
    var s' := Apply(s, ForkAlloc(p, c));
    forall q: nat | q < |s.pc| ensures ProcOk(s', q) {
      Know(s, q);
    }
  }

  lemma ForkAllocKeeps(s: State, p: nat, c: nat)
    requires Inv(s) && Enabled(s, ForkAlloc(p, c))
    ensures Inv(Apply(s, ForkAlloc(p, c)))
  {
    hide Inv;
    Know(s, p);
    ForkAllocProcs(s, p, c);
    Know(s, c);
    var s' := Apply(s, ForkAlloc(p, c));
    forall q: nat, d: nat | q < |s.pc| && d < |s.pc| ensures ChildOk(s', q, d) {
      Know(s, q);
      KnowChild(s, q, d);
    }
    Assembled(s');
  }

  lemma ForkAdoptKeeps(s: State, p: nat)
    requires Inv(s) && Enabled(s, ForkAdopt(p))
    ensures Inv(Apply(s, ForkAdopt(p)))
  {
    hide Inv;
    Know(s, p);
    var s' := Apply(s, ForkAdopt(p));
    forall q: nat | q < |s.pc| ensures ProcOk(s', q) {
      Know(s, q);
    }
    forall q: nat, c: nat | q < |s.pc| && c < |s.pc| ensures ChildOk(s', q, c) {
      Know(s, q);
      KnowChild(s, q, c);
    }
    Assembled(s');
  }

  lemma ForkStartProcs(s: State, p: nat)
    requires Inv(s) && Enabled(s, ForkStart(p))
    ensures var s' := Apply(s, ForkStart(p));
            Sizes(s') && -1 <= s'.holder < |s'.pc| && forall q: nat :: q < |s'.pc| ==> ProcOk(s', q)
  {
    hide Inv;
    Know(s, p);
    Know(s, s.pc[p].child);
    var s' := Apply(s, ForkStart(p));
    forall q: nat | q < |s.pc| ensures ProcOk(s', q) {
      Know(s, q);
    }
  }

  lemma ForkStartKeeps(s: State, p: nat)
    requires Inv(s) && Enabled(s, ForkStart(p))
    ensures Inv(Apply(s, ForkStart(p)))
  {
    hide Inv;
    Know(s, p);
    ForkStartProcs(s, p);
    Know(s, s.pc[p].child);
    var s' := Apply(s, ForkStart(p));
    forall q: nat, c: nat | q < |s.pc| && c < |s.pc| ensures ChildOk(s', q, c) {
      Know(s, q);
      KnowChild(s, q, c);
    }
    Assembled(s');
  }

  lemma ReapProcs(s: State, p: nat, fault: bool)
    requires Inv(s) && Enabled(s, Reap(p, fault))
    ensures var s' := Apply(s, Reap(p, fault));
            Sizes(s') && -1 <= s'.holder < |s'.pc| && forall q: nat :: q < |s'.pc| ==> ProcOk(s', q)
  {
    hide Inv;
    Know(s, p);
    KnowChild(s, p, s.pc[p].k);
    Know(s, s.pc[p].k);
    var s' := Apply(s, Reap(p, fault));
    forall q: nat | q < |s.pc| ensures ProcOk(s', q) {
      Know(s, q);
    }
  }

  lemma ReapKeeps(s: State, p: nat, fault: bool)
    requires Inv(s) && Enabled(s, Reap(p, fault))
    ensures Inv(Apply(s, Reap(p, fault)))
  {
    hide Inv;
    Know(s, p);
    ReapProcs(s, p, fault);
    KnowChild(s, p, s.pc[p].k);
    Know(s, s.pc[p].k);
    var s' := Apply(s, Reap(p, fault));
    forall q: nat, c: nat | q < |s.pc| && c < |s.pc| ensures ChildOk(s', q, c) {
      Know(s, q);
      KnowChild(s, q, c);
    }
    Assembled(s');
  }

  lemma GiveKeeps(s: State, p: nat)
    requires Inv(s) && Enabled(s, Give(p))
    ensures Inv(Apply(s, Give(p)))
  {
    hide Inv;
    Know(s, p);
    KnowChild(s, p, s.pc[p].k);
    Know(s, s.init);
    var s' := Apply(s, Give(p));
    forall q: nat | q < |s.pc| ensures ProcOk(s', q) {
      Know(s, q);
    }
    forall q: nat, c: nat | q < |s.pc| && c < |s.pc| ensures ChildOk(s', q, c) {
      Know(s, q);
      KnowChild(s, q, c);
    }
    Assembled(s');
  }

  lemma WakeInitProcs(s: State, p: nat)
    requires Inv(s) && Enabled(s, WakeInit(p))
    ensures var s' := Apply(s, WakeInit(p));
            Sizes(s') && -1 <= s'.holder < |s'.pc| && forall q: nat :: q < |s'.pc| ==> ProcOk(s', q)
  {
    hide Inv;
    Know(s, p);
    var s' := Apply(s, WakeInit(p));
    forall q: nat | q < |s.pc| ensures ProcOk(s', q) {
      Know(s, q);
    }
  }

  lemma WakeInitKeeps(s: State, p: nat)
    requires Inv(s) && Enabled(s, WakeInit(p))
    ensures Inv(Apply(s, WakeInit(p)))
  {
    hide Inv;
    Know(s, p);
    WakeInitProcs(s, p);
    var s' := Apply(s, WakeInit(p));
    forall q: nat, c: nat | q < |s.pc| && c < |s.pc| ensures ChildOk(s', q, c) {
      Know(s, q);
      KnowChild(s, q, c);
    }
    Assembled(s');
  }

  lemma WakeParentProcs(s: State, p: nat)
    requires Inv(s) && Enabled(s, WakeParent(p))
    ensures var s' := Apply(s, WakeParent(p));
            Sizes(s') && -1 <= s'.holder < |s'.pc| && forall q: nat :: q < |s'.pc| ==> ProcOk(s', q)
  {
    hide Inv;
    Know(s, p);
    var s' := Apply(s, WakeParent(p));
    forall q: nat | q < |s.pc| ensures ProcOk(s', q) {
      Know(s, q);
    }
  }

  lemma WakeParentKeeps(s: State, p: nat)
    requires Inv(s) && Enabled(s, WakeParent(p))
    ensures Inv(Apply(s, WakeParent(p)))
  {
    hide Inv;
    Know(s, p);
    WakeParentProcs(s, p);
    var s' := Apply(s, WakeParent(p));
    forall q: nat, c: nat | q < |s.pc| && c < |s.pc| ensures ChildOk(s', q, c) {
      Know(s, q);
      KnowChild(s, q, c);
    }
    Assembled(s');
  }

  lemma BecomeZombieKeeps(s: State, p: nat)
    requires Inv(s) && Enabled(s, BecomeZombie(p))
    ensures Inv(Apply(s, BecomeZombie(p)))
  {
    hide Inv;
    Know(s, p);
    var s' := Apply(s, BecomeZombie(p));
    forall q: nat | q < |s.pc| ensures ProcOk(s', q) {
      Know(s, q);
    }
    forall q: nat, c: nat | q < |s.pc| && c < |s.pc| ensures ChildOk(s', q, c) {
      Know(s, q);
      KnowChild(s, q, c);
    }
    Assembled(s');
  }

  /** Steps that move one process along its own code and touch no parent, no child and no count. */
  predicate Alone(step: Step) {
    || step.WaitStart? || step.WaitSkip? || step.WaitSee? || step.WaitEnd? || step.SleepRelease? || step.SleepDone?
      || step.Kill?
    || step.ExitStart? || step.GiveSkip? || step.GiveEnd? || step.WakeInitEnd? || step.WakeParentEnd?
      || step.ExitRelease? || step.Leave?
  }

  /** `s` with process `p` at `pc` and wait_lock with `holder`. */
  function Moved(s: State, p: nat, pc: Pc, holder: int): State
    requires p < |s.pc|
  {
    s.(pc := s.pc[p := pc], holder := holder)
  }

  /** What others rely on: the lock is p's to take and give, p does not fall asleep on them, stays as dead or alive as
      it was, is in no fork, and owes nobody a wakeup it forgets. */
  predicate Harmless(s: State, p: nat, pc: Pc, holder: int)
    requires p < |s.pc|
  {
    var was := s.pc[p];
    && (s.holder == -1 || s.holder == p || holder == s.holder) && (holder == s.holder || holder == p || holder == -1)
    && (Sleepy(pc) ==> Sleepy(was) || s.holder == p)
    && (IsZombie(pc) <==> IsZombie(was)) && !was.Unused? && !pc.Unused?
    && !was.Embryo? && !was.Forking? && !pc.Embryo? && !pc.Forking?
    && (was.ExitWakeInit? ==> was.j > s.init)
  }

  lemma MovedProc(s: State, p: nat, pc: Pc, holder: int, q: nat)
    requires Sizes(s) && p < |s.pc| && q < |s.pc| && q != p && Harmless(s, p, pc, holder)
    requires -1 <= s.holder < |s.pc| && ProcOk(s, p) && ProcOk(s, q)
    ensures ProcOk(Moved(s, p, pc, holder), q)
  {
  }

  lemma MovedChild(s: State, p: nat, pc: Pc, holder: int, q: nat, c: nat)
    requires Sizes(s) && p < |s.pc| && q < |s.pc| && c < |s.pc| && q != p && Harmless(s, p, pc, holder)
    requires ProcOk(s, p) && ChildOk(s, q, c)
    ensures ChildOk(Moved(s, p, pc, holder), q, c)
  {
  }

  lemma MoveKeeps(s: State, p: nat, pc: Pc, holder: int)
    requires Inv(s) && p < |s.pc| && Harmless(s, p, pc, holder) && -1 <= holder < |s.pc|
    requires Sizes(s) && ProcOk(Moved(s, p, pc, holder), p)
    requires forall c: nat :: c < |s.pc| ==> ChildOk(Moved(s, p, pc, holder), p, c)
    ensures Inv(Moved(s, p, pc, holder))
  {
    hide Inv, ProcOk, ChildOk, Harmless;
    var s' := Moved(s, p, pc, holder);
    Know(s, p);
    forall q: nat | q < |s.pc| ensures ProcOk(s', q) {
      Know(s, q);
      if q != p {
        MovedProc(s, p, pc, holder, q);
      }
    }
    forall q: nat, c: nat | q < |s.pc| && c < |s.pc| ensures ChildOk(s', q, c) {
      KnowChild(s, q, c);
      if q != p {
        MovedChild(s, p, pc, holder, q, c);
      }
    }
    Assembled(s');
  }

  lemma AloneKeeps(s: State, step: Step)
    requires Inv(s) && Enabled(s, step) && Alone(step)
    ensures Inv(Apply(s, step))
  {
    hide Inv;
    var p, s' := step.p, Apply(s, step);
    Know(s, p);
    AloneIsHarmless(s, step);
    forall c: nat | c < |s.pc| ensures ChildOk(s', p, c) {
      KnowChild(s, p, c);
      AloneChild(s, step, c);
    }
    hide Enabled, Apply, ProcOk, ChildOk, Harmless, Alone;
    MoveKeeps(s, p, s'.pc[p], s'.holder);
  }

  predicate Waiting(step: Step) {
    || step.WaitStart? || step.WaitSkip? || step.WaitSee? || step.WaitEnd? || step.SleepRelease? || step.SleepDone?
      || step.Kill?
  }

  /** The step is such a move, and leaves the process itself in order. */
  predicate GoodMove(s: State, step: Step)
    requires Sizes(s) && Enabled(s, step)
  {
    var s', p := Apply(s, step), step.p;
    && Sizes(s') && |s'.pc| == |s.pc| && s' == Moved(s, p, s'.pc[p], s'.holder) && Harmless(s, p, s'.pc[p], s'.holder)
    && ProcOk(s', p) && -1 <= s'.holder < |s.pc|
  }

  predicate Scanning(step: Step) {
    step.WaitStart? || step.WaitSkip? || step.WaitSee?
  }

  lemma ScanningMove(s: State, step: Step)
    requires Sizes(s) && Enabled(s, step) && Scanning(step) && ProcOk(s, step.p) && -1 <= s.holder < |s.pc|
    ensures GoodMove(s, step)
  {
  }

  lemma SleepingMove(s: State, step: Step)
    requires Sizes(s) && Enabled(s, step) && Waiting(step) && !Scanning(step) && ProcOk(s, step.p)
    requires -1 <= s.holder < |s.pc|
    ensures GoodMove(s, step)
  {
  }

  lemma ExitingMove(s: State, step: Step)
    requires Sizes(s) && Enabled(s, step) && Alone(step) && !Waiting(step) && ProcOk(s, step.p)
             && -1 <= s.holder < |s.pc|
    ensures GoodMove(s, step)
  {
  }

  lemma AloneIsHarmless(s: State, step: Step)
    requires Sizes(s) && Enabled(s, step) && Alone(step) && ProcOk(s, step.p) && -1 <= s.holder < |s.pc|
    ensures GoodMove(s, step)
  {
    hide *;
    if Scanning(step) {
      ScanningMove(s, step);
    } else if Waiting(step) {
      SleepingMove(s, step);
    } else {
      ExitingMove(s, step);
    }
  }

  lemma WaitingChild(s: State, step: Step, c: nat)
    requires Sizes(s) && Enabled(s, step) && Waiting(step) && c < |s.pc| && ProcOk(s, step.p) && ChildOk(s, step.p, c)
    ensures Sizes(Apply(s, step)) && ChildOk(Apply(s, step), step.p, c)
  {
  }

  lemma AloneChild(s: State, step: Step, c: nat)
    requires Sizes(s) && Enabled(s, step) && Alone(step) && c < |s.pc| && ProcOk(s, step.p) && ChildOk(s, step.p, c)
    ensures Sizes(Apply(s, step)) && ChildOk(Apply(s, step), step.p, c)
  {
    if Waiting(step) {
      hide *;
      WaitingChild(s, step, c);
    }
  }

  lemma StepKeepsInv(s: State, step: Step)
    requires Inv(s) && Enabled(s, step)
    ensures Inv(Apply(s, step))
  {
    if Alone(step) {
      hide *;
      AloneKeeps(s, step);
      return;
    }
    hide Inv, Apply;
    match step
    case ForkAlloc(p, c) => ForkAllocKeeps(s, p, c);
    case ForkAdopt(p) => ForkAdoptKeeps(s, p);
    case ForkStart(p) => ForkStartKeeps(s, p);
    case Reap(p, fault) => ReapKeeps(s, p, fault);
    case Give(p) => GiveKeeps(s, p);
    case WakeInit(p) => WakeInitKeeps(s, p);
    case WakeParent(p) => WakeParentKeeps(s, p);
    case BecomeZombie(p) => BecomeZombieKeeps(s, p);
  }

  lemma InitialInv(s: State)
    requires Initial(s)
    ensures Inv(s)
  {
    forall p: nat | p < |s.pc| ensures ProcOk(s, p) {
      assert s.parent[p] == -1 && s.exits[p] == s.reaps[p];
    }
    forall p: nat, c: nat | p < |s.pc| && c < |s.pc| ensures ChildOk(s, p, c) {
      assert s.parent[c] == -1;
    }
  }

  lemma {:induction false} RunKeepsInv(s: State, steps: seq<Step>, t: State)
    requires Inv(s) && Runs(s, steps, t)
    ensures Inv(t)
    decreases |steps|
  {
    hide Inv, Enabled, Apply;
    if steps != [] {
      StepKeepsInv(s, steps[0]);
      RunKeepsInv(Apply(s, steps[0]), steps[1..], t);
    }
  }

  // ---------------------------------------------------------------- who waits has a child

  predicate HasChild(s: State, p: nat)
    requires Sizes(s)
  {
    exists c: nat :: c < |s.pc| && s.parent[c] == p
  }

  /** In kwait, having seen a child or decided to sleep. */
  predicate Expects(pc: Pc) {
    (pc.WaitScan? && pc.kids) || pc.WaitLocked? || Sleepy(pc)
  }

  ghost predicate Fed(s: State) {
    Sizes(s) && forall p: nat :: p < |s.pc| && Expects(s.pc[p]) ==> HasChild(s, p)
  }

  /** The parent of an entry changes in three ways only: kfork sets it, exit's reparent gives it to init, and its own
      parent reaps it. */
  lemma ParentMoves(s: State, step: Step, c: nat)
    requires Inv(s) && Enabled(s, step) && c < |s.pc|
    ensures var t := Apply(s, step);
            && |t.parent| == |s.parent|
            && (t.parent[c] != s.parent[c] ==>
                  || (step.ForkAdopt? && s.pc[c] == Embryo(step.p) && s.parent[c] == -1 && t.parent[c] == step.p)
                  || (step.Give? && s.parent[c] == step.p && t.parent[c] == s.init)
                  || (step.Reap? && s.parent[c] == step.p && IsZombie(s.pc[c]) && t.parent[c] == -1 && t.pc[c].Unused?))
  {
    hide Inv;
    Know(s, step.p);
    Know(s, c);
    hide ProcOk;
  }

  /** What a step does to others never brings them into kwait. */
  lemma ExpectsOther(s: State, step: Step, p: nat)
    requires Enabled(s, step) && p < |s.pc| && p != step.p
    ensures |Apply(s, step).pc| == |s.pc| && (Expects(Apply(s, step).pc[p]) ==> Expects(s.pc[p]))
  {
    hide Sizes;
  }

  lemma ExpectsOwn(s: State, step: Step)
    requires Enabled(s, step)
    ensures |Apply(s, step).pc| == |s.pc|
    ensures Expects(Apply(s, step).pc[step.p]) ==>
              (Expects(s.pc[step.p]) && !step.Give? && !step.Reap?) || step == WaitSee(step.p)
  {
    hide Sizes, Locked, IsZombie;
  }

  lemma ExpectsSince(s: State, step: Step, p: nat)
    requires Enabled(s, step) && p < |s.pc|
    ensures |Apply(s, step).pc| == |s.pc|
    ensures Expects(Apply(s, step).pc[p]) ==>
              || (Expects(s.pc[p]) && (step.p == p ==> !step.Give? && !step.Reap?))
              || step == WaitSee(p)
  {
    hide *;
    if step.p == p {
      ExpectsOwn(s, step);
    } else {
      ExpectsOther(s, step, p);
    }
  }

  lemma StepKeepsFed(s: State, step: Step)
    requires Inv(s) && Fed(s) && Enabled(s, step)
    ensures Fed(Apply(s, step))
  {
    hide Apply, Enabled;
    StepKeepsInv(s, step);
    var t := Apply(s, step);
    SizesOf(t);
    SizesOf(s);
    hide Inv;
    SameCount(s, step);
    forall p: nat | p < |t.pc| && Expects(t.pc[p]) ensures HasChild(t, p) {
      ExpectsSince(s, step, p);
      hide Expects;
      if Expects(s.pc[p]) {
        var c: nat :| c < |s.pc| && s.parent[c] == p;
        ParentMoves(s, step, c);
        assert t.parent[c] == p;
      } else {
        assert step == WaitSee(p);
        var c := SeenBy(s, p);
        ParentMoves(s, step, c);
        assert t.parent[c] == p;
      }
    }
  }

  lemma SeenBy(s: State, p: nat) returns (c: nat)
    requires Enabled(s, WaitSee(p))
    ensures c < |s.pc| && s.parent[c] == p
  {
    c := s.pc[p].k;
  }

  lemma SizesOf(s: State)
    requires Inv(s)
    ensures Sizes(s)
  {
  }

  lemma SameCount(s: State, step: Step)
    requires Enabled(s, step)
    ensures |Apply(s, step).pc| == |s.pc|
  {
  }

  lemma {:induction false} RunKeepsFed(s: State, steps: seq<Step>, t: State)
    requires Inv(s) && Fed(s) && Runs(s, steps, t)
    ensures Inv(t) && Fed(t)
    decreases |steps|
  {
    hide Inv, Enabled, Apply, Fed;
    if steps != [] {
      StepKeepsFed(s, steps[0]);
      StepKeepsInv(s, steps[0]);
      RunKeepsFed(Apply(s, steps[0]), steps[1..], t);
    }
  }

  // ---------------------------------------------------------------- main results

  /** No lost exit: whenever wait_lock is free, a parent asleep in kwait, or committed to it, has no zombie
      child, whether its own or inherited by init through reparent. */
  lemma SleepingParentHasNoZombie(s: State, steps: seq<Step>, t: State, p: nat, c: nat)
    requires Initial(s) && Runs(s, steps, t) && t.holder == -1
    requires p < |t.pc| && Sleepy(t.pc[p]) && c < |t.parent| == |t.pc| && t.parent[c] == p
    ensures !IsZombie(t.pc[c])
  {
    hide Inv, Runs;
    InitialInv(s);
    RunKeepsInv(s, steps, t);
    KnowChild(t, p, c);
  }

  /** Every process that exits in an entry is reaped at most once, and none is reaped that has not exited;
      until then it stays a zombie with a parent that is neither exiting beyond reparent nor gone. */
  lemma ReapedOncePerExit(s: State, steps: seq<Step>, t: State, c: nat)
    requires Initial(s) && Runs(s, steps, t) && c < |t.pc|
    ensures Sizes(t) && t.exits[c] == t.reaps[c] + (if IsZombie(t.pc[c]) then 1 else 0)
    ensures IsZombie(t.pc[c]) ==> 0 <= t.parent[c] && !Childless(t.pc[t.parent[c]])
  {
    hide Inv, Runs;
    InitialInv(s);
    RunKeepsInv(s, steps, t);
    Know(t, c);
    if t.parent[c] >= 0 {
      KnowChild(t, t.parent[c], c);
    }
  }

  /** When kwait reaches the end of its scan no child is a zombie, and what it does then is exact: it returns -1 if and
      only if it was killed or has no child, and goes to sleep otherwise. */
  lemma ScanIsExact(s: State, steps: seq<Step>, t: State, p: nat, killed: bool)
    requires Initial(s) && Runs(s, steps, t) && Enabled(t, WaitEnd(p, killed))
    ensures forall c: nat :: c < |t.pc| && t.parent[c] == p ==> !IsZombie(t.pc[c])
    ensures var u := Apply(t, WaitEnd(p, killed));
            && (u.pc[p].Run? <==> killed || !HasChild(t, p))
            && (u.pc[p].Run? ==> u.holder == -1) && (!u.pc[p].Run? ==> u.pc[p].WaitLocked?)
  {
    InitialInv(s);
    assert Fed(s);
    hide Inv, Runs;
    RunKeepsFed(s, steps, t);
    forall c: nat | c < |t.pc| && t.parent[c] == p ensures t.pc[p].kids && !IsZombie(t.pc[c]) {
      KnowChild(t, p, c);
    }
  }

  /** A process asleep in kwait, or committed to it, has a child to wait for. */
  lemma SleepingParentHasChild(s: State, steps: seq<Step>, t: State, p: nat)
    requires Initial(s) && Runs(s, steps, t) && p < |t.pc| && Sleepy(t.pc[p])
    ensures Sizes(t) && HasChild(t, p)
  {
    InitialInv(s);
    assert Fed(s);
    hide Inv, Runs;
    RunKeepsFed(s, steps, t);
  }

  /** What kwait hands back: one of its own children that had exited, which is then gone from the table and nobody's
      child, counted as reaped once more; or, if its status cannot be delivered, nothing, and the child stays. */
  lemma WaitReaps(s: State, steps: seq<Step>, t: State, p: nat, fault: bool)
    requires Initial(s) && Runs(s, steps, t) && Enabled(t, Reap(p, fault))
    ensures var c, u := t.pc[p].k, Apply(t, Reap(p, fault));
            && t.parent[c] == p && IsZombie(t.pc[c]) && t.exits[c] == t.reaps[c] + 1
            && u.pc[p].Run? && u.holder == -1 && u.exits == t.exits
            && (if fault then u.reaps == t.reaps && u.parent == t.parent && u.pc[c] == t.pc[c]
                else u.pc[c].Unused? && u.parent[c] == -1 && u.reaps == t.reaps[c := t.exits[c]])
            && (forall q: nat :: q < |t.pc| && q != p && q != c ==> u.pc[q] == t.pc[q] && u.parent[q] == t.parent[q])
  {
    hide Inv, Runs;
    InitialInv(s);
    RunKeepsInv(s, steps, t);
    Know(t, p);
    Know(t, t.pc[p].k);
    KnowChild(t, p, t.pc[p].k);
  }

  // ---------------------------------------------------------------- nobody is stuck

  /** No step leaves its process where it was. */
  lemma StepMoves(s: State, step: Step)
    requires Inv(s) && Enabled(s, step)
    ensures step.p < |Apply(s, step).pc| == |s.pc| && Apply(s, step).pc[step.p] != s.pc[step.p]
  {
    hide Inv;
    Know(s, step.p);
  }

  /** A process in kfork or kwait can go on, except where it has to wait: for wait_lock, for a wakeup, or for the lock
      of a
      child. */
  predicate WaitGoesOn(s: State, p: nat)
    requires Sizes(s) && p < |s.pc|
  {
    var free := s.holder == -1;
    match s.pc[p]
    case Run => free ==> Enabled(s, WaitStart(p)) && (p != s.init ==> Enabled(s, ExitStart(p)))
    case Forking(_, adopted) => if adopted then Enabled(s, ForkStart(p)) else free ==> Enabled(s, ForkAdopt(p))
    case WaitScan(k, _) =>
      || Enabled(s, WaitSkip(p)) || Enabled(s, WaitSee(p)) || Enabled(s, Reap(p, false))
      || Enabled(s, WaitEnd(p, false)) || (k < |s.pc| && Locked(s.pc[k]))
    case WaitLocked => Enabled(s, SleepRelease(p))
    case Committed => Enabled(s, SleepDone(p))
    case Woken => free ==> Enabled(s, WaitStart(p))
    case _ => true
  }

  /** A process in kexit can go on until it is gone, waiting only for the lock of a process in its wakeup scans. */
  predicate ExitGoesOn(s: State, p: nat)
    requires Sizes(s) && p < |s.pc|
  {
    match s.pc[p]
    case ExitScan(_) => Enabled(s, GiveSkip(p)) || Enabled(s, Give(p)) || Enabled(s, GiveEnd(p))
    case ExitWakeInit(_, j) =>
      Enabled(s, WakeInit(p)) || Enabled(s, WakeInitEnd(p)) || (j < |s.pc| && Locked(s.pc[j]))
    case ExitWake(j) => Enabled(s, WakeParent(p)) || Enabled(s, WakeParentEnd(p)) || (j < |s.pc| && Locked(s.pc[j]))
    case ExitLocked => Enabled(s, BecomeZombie(p))
    case ExitZombie => Enabled(s, ExitRelease(p))
    case Zombie(gone) => gone || Enabled(s, Leave(p))
    case _ => true
  }

  lemma WaitNeverStuck(s: State, p: nat)
    requires Inv(s) && p < |s.pc|
    ensures Sizes(s) && WaitGoesOn(s, p)
  {
    hide Inv;
    Know(s, p);
  }

  lemma ExitNeverStuck(s: State, p: nat)
    requires Inv(s) && p < |s.pc|
    ensures Sizes(s) && ExitGoesOn(s, p)
  {
    hide Inv;
    Know(s, p);
  }

  function Rest(n: nat, k: nat): nat {
    if k < n then n - k else 0
  }

  /** An upper bound on the steps the holder of wait_lock takes before it lets go of it, in a table of `n`. */
  function Work(pc: Pc, n: nat): nat {
    match pc
    case WaitScan(k, _) => Rest(n, k) + 3
    case WaitLocked => 1
    case ExitScan(k) => Rest(n, k) * (n + 2) + n + 5
    case ExitWakeInit(k, j) => Rest(n, k + 1) * (n + 2) + Rest(n, j) + 1 + n + 5
    case ExitWake(j) => Rest(n, j) + 4
    case ExitLocked => 2
    case ExitZombie => 1
    case _ => 0
  }

  lemma RestStep(n: nat, k: nat)
    requires k < n
    ensures Rest(n, k) * (n + 2) == Rest(n, k + 1) * (n + 2) + n + 2
  {
  }

  /** Whoever holds wait_lock lets go of it after so many steps of its own. */
  lemma HolderLetsGo(s: State, step: Step)
    requires Inv(s) && Enabled(s, step) && s.holder == step.p && !step.Kill?
    ensures Sizes(s)
    ensures var t := Apply(s, step);
            t.holder == s.holder ==> Work(t.pc[step.p], |s.pc|) < Work(s.pc[step.p], |s.pc|)
  {
    hide Inv;
    Know(s, step.p);
    var pc := s.pc[step.p];
    if pc.ExitScan? && pc.k < |s.pc| {
      RestStep(|s.pc|, pc.k);
    }
  }

  /** Nobody else takes it away or moves the holder. */
  lemma HolderUndisturbed(s: State, step: Step)
    requires Inv(s) && Enabled(s, step) && 0 <= s.holder && s.holder != step.p
    ensures Sizes(s) && s.holder < |s.pc|
    ensures Apply(s, step).holder == s.holder && Apply(s, step).pc[s.holder] == s.pc[s.holder]
  {
    assert s.holder < |s.pc|;
    hide Inv;
    Know(s, s.holder);
    Know(s, step.p);
  }
}
