/**
  Group commit: begin_op, log_write and end_op of any number of processes in any order.

  One step is one hold of log.lock (a `sleep` or a whole `wakeup` scan inside it included), or one of
  the two moments of commit that matter here: clearing the list and, later, dropping `committing`.
*/
module LogReserve {
  import opened Machine

  /** What a process is doing with the log.  `In` carries the blocks the operation has logged so far and
      how many of them it appended to the list itself, the others being absorbed. */
  datatype Op =
    | Out
    | Asleep
    | In(logged: set<nat>, added: nat)
    | Committer

  /** `maxOp` is MAXOPBLOCKS, `cap` is LOGBLOCKS, `lh` the list of logged blocks, `panicked` whether any
      of the kernel's panics was reached. */
  datatype State = State(maxOp: nat, cap: nat, ops: seq<Op>, outstanding: nat, committing: bool, lh: seq<nat>,
    panicked: bool)

  datatype Step =
    | Begin(p: nat)
    | LogWrite(p: nat, b: nat)
    | End(p: nat)
    | CommitClear(p: nat)
    | CommitDone(p: nat)
    | Kill(p: nat)               // kkill wakes a sleeper, which tests again

  /** Space reserved once one more operation runs beside `outstanding` others. */
  function Need(outstanding: nat, maxOp: nat): nat {
    (outstanding + 1) * maxOp
  }

  predicate Full(s: State) {
    |s.lh| + Need(s.outstanding, s.maxOp) > s.cap
  }

  predicate Enabled(s: State, step: Step) {
    && !s.panicked && step.p < |s.ops|
    && match step
       case Begin(p) => s.ops[p].Out?
       case LogWrite(p, b) => s.ops[p].In?
       case End(p) => s.ops[p].In?
       case CommitClear(p) => s.ops[p].Committer?
       case CommitDone(p) => s.ops[p].Committer? && s.lh == []
       case Kill(p) => s.ops[p].Asleep?
  }

  function Woken(ops: seq<Op>): (r: seq<Op>)
    ensures |r| == |ops| && forall q :: 0 <= q < |ops| ==> r[q] == if ops[q].Asleep? then Out else ops[q]
  {
    seq(|ops|, q requires 0 <= q < |ops| => if ops[q].Asleep? then Out else ops[q])
  }

  function Apply(s: State, step: Step): State
    requires Enabled(s, step)
  {
    match step
    case Begin(p) =>
      if s.committing || Full(s) then s.(ops := s.ops[p := Asleep])
      else s.(ops := s.ops[p := In({}, 0)], outstanding := s.outstanding + 1)
    case LogWrite(p, b) =>
      if |s.lh| >= s.cap || s.outstanding < 1 then s.(panicked := true)
      else
        var op := s.ops[p];
        if b in s.lh then s.(ops := s.ops[p := In(op.logged + {b}, op.added)])
        else s.(ops := s.ops[p := In(op.logged + {b}, op.added + 1)], lh := s.lh + [b])
    case End(p) =>
      var t := s.(outstanding := if s.outstanding == 0 then 0 else s.outstanding - 1);
      if s.committing then t.(panicked := true)
      else if t.outstanding == 0 then t.(ops := s.ops[p := Committer], committing := true)
      else t.(ops := Woken(s.ops[p := Out]))
    case CommitClear(p) => s.(lh := [])
    case CommitDone(p) => s.(ops := Woken(s.ops[p := Out]), committing := false)
    case Kill(p) => s.(ops := s.ops[p := Out])
  }

  predicate Initial(s: State) {
    && s.outstanding == 0 && !s.committing && s.lh == [] && !s.panicked && 0 < s.cap
    && forall p :: 0 <= p < |s.ops| ==> s.ops[p].Out?
  }

  /** Every operation keeps to at most `limit` distinct blocks. */
  predicate Within(s: State, step: Step, limit: int)
    requires Enabled(s, step)
  {
    step.LogWrite? ==> |s.ops[step.p].logged + {step.b}| <= limit
  }

  ghost predicate Run(s: State, steps: seq<Step>, t: State, limit: int)
    decreases |steps|
  {
    if steps == [] then s == t
    else Enabled(s, steps[0]) && Within(s, steps[0], limit) && Run(Apply(s, steps[0]), steps[1..], t, limit)
  }

  // ---------------------------------------------------------------- the invariant

  function Count(ops: seq<Op>): nat {
    if ops == [] then 0 else Count(ops[..|ops| - 1]) + if ops[|ops| - 1].In? then 1 else 0
  }

  /** Reserved log space that running operations have not used. */
  function Unspent(ops: seq<Op>, maxOp: nat): int {
    if ops == [] then 0
    else
      var op := ops[|ops| - 1];
      Unspent(ops[..|ops| - 1], maxOp) + if op.In? then maxOp - op.added else 0
  }

  lemma {:induction false} CountUpdate(ops: seq<Op>, p: nat, op: Op)
    requires p < |ops|
    ensures Count(ops[p := op]) == Count(ops) - (if ops[p].In? then 1 else 0) + (if op.In? then 1 else 0)
    decreases |ops|
  {
    var n := |ops| - 1;
    if p == n {
      assert ops[p := op][..n] == ops[..n];
    } else {
      assert ops[p := op][..n] == ops[..n][p := op];
      CountUpdate(ops[..n], p, op);
    }
  }

  lemma {:induction false} UnspentUpdate(ops: seq<Op>, p: nat, op: Op, maxOp: nat)
    requires p < |ops|
    ensures Unspent(ops[p := op], maxOp) == Unspent(ops, maxOp)
              - (if ops[p].In? then maxOp - ops[p].added else 0) + (if op.In? then maxOp - op.added else 0)
    decreases |ops|
  {
    var n := |ops| - 1;
    if p == n {
      assert ops[p := op][..n] == ops[..n];
    } else {
      assert ops[p := op][..n] == ops[..n][p := op];
      UnspentUpdate(ops[..n], p, op, maxOp);
    }
  }

  lemma {:induction false} WokenSums(ops: seq<Op>, maxOp: nat)
    ensures Count(Woken(ops)) == Count(ops) && Unspent(Woken(ops), maxOp) == Unspent(ops, maxOp)
    decreases |ops|
  {
    if ops != [] {
      var n := |ops| - 1;
      assert Woken(ops)[..n] == Woken(ops[..n]);
      WokenSums(ops[..n], maxOp);
    }
  }

  /** No operation has logged more than `limit` distinct blocks. */
  predicate Modest(ops: seq<Op>, limit: nat) {
    forall p :: 0 <= p < |ops| && ops[p].In? ==> ops[p].added <= |ops[p].logged| <= limit
  }

  /** With modest operations no unspent share is negative, and none is larger than the whole. */
  lemma {:induction false} UnspentAtLeast(ops: seq<Op>, maxOp: nat, p: nat)
    requires Modest(ops, maxOp) && p < |ops|
    ensures Unspent(ops, maxOp) >= if ops[p].In? then maxOp - ops[p].added else 0
    decreases |ops|
  {
    var n := |ops| - 1;
    assert Modest(ops[..n], maxOp);
    if p < n {
      UnspentAtLeast(ops[..n], maxOp, p);
    } else {
      UnspentNonNegative(ops[..n], maxOp);
    }
  }

  lemma {:induction false} UnspentNonNegative(ops: seq<Op>, maxOp: nat)
    requires Modest(ops, maxOp)
    ensures Unspent(ops, maxOp) >= 0
    decreases |ops|
  {
    if ops != [] {
      UnspentNonNegative(ops[..|ops| - 1], maxOp);
    }
  }

  lemma {:induction false} CountZero(ops: seq<Op>, p: nat)
    requires p < |ops| && ops[p].In?
    ensures Count(ops) >= 1
    decreases |ops|
  {
    if p < |ops| - 1 {
      CountZero(ops[..|ops| - 1], p);
    }
  }

  lemma NobodyIn(ops: seq<Op>)
    requires Count(ops) == 0
    ensures forall p :: 0 <= p < |ops| ==> !ops[p].In?
  {
    forall p | 0 <= p < |ops| ensures !ops[p].In? {
      if ops[p].In? {
        CountZero(ops, p);
      }
    }
  }

  /** Somebody is at it while `committing` is set, and it is set as soon as no operation runs and blocks are listed. */
  predicate CommitDue(s: State) {
    && (s.committing ==> exists p :: 0 <= p < |s.ops| && s.ops[p].Committer?)
    && (s.outstanding == 0 && s.lh != [] ==> s.committing)
  }

  /** With operations of at most `limit` distinct blocks each, `limit` being at most MAXOPBLOCKS. */
  predicate Inv(s: State, limit: nat) {
    && !s.panicked && s.cap > 0 && limit <= s.maxOp && s.outstanding == Count(s.ops)
    && Modest(s.ops, limit) && Distinct(s.lh)
    && (s.committing ==> s.outstanding == 0)
    && (forall p :: 0 <= p < |s.ops| && s.ops[p].Committer? ==> s.committing)
    && (forall p, q :: 0 <= p < q < |s.ops| ==> !(s.ops[p].Committer? && s.ops[q].Committer?))
    && (forall p, b :: 0 <= p < |s.ops| && s.ops[p].In? && b in s.ops[p].logged ==> b in s.lh)
    && |s.lh| + Unspent(s.ops, s.maxOp) <= s.cap && (limit < s.maxOp ==> |s.lh| < s.cap)
    && (forall p :: 0 <= p < |s.ops| && s.ops[p].Asleep? ==> s.committing || Full(s)) && CommitDue(s)
  }

  lemma {:induction false} UnspentAtMost(ops: seq<Op>, maxOp: nat)
    ensures Unspent(ops, maxOp) + maxOp <= Need(Count(ops), maxOp)
    decreases |ops|
  {
    if ops != [] {
      var n := |ops| - 1;
      UnspentAtMost(ops[..n], maxOp);
      assert (Count(ops[..n]) + 2) * maxOp == (Count(ops[..n]) + 1) * maxOp + maxOp;
    }
  }

  // ---------------------------------------------------------------- every step keeps it

  lemma ModestOps(ops: seq<Op>, limit: nat, maxOp: nat)
    requires Modest(ops, limit) && limit <= maxOp
    ensures Modest(ops, maxOp)
  {
  }

  lemma BeginKeeps(s: State, p: nat, limit: nat)
    requires Inv(s, limit) && Enabled(s, Begin(p)) && s.maxOp > 0
    ensures Inv(Apply(s, Begin(p)), limit)
  {
    var t := Apply(s, Begin(p));
    CountUpdate(s.ops, p, t.ops[p]);
    UnspentUpdate(s.ops, p, t.ops[p], s.maxOp);
    UnspentAtMost(s.ops, s.maxOp);
    hide Count, Unspent, Need;
    CommitterStays(s, t, p);
  }

  /** The committer, if somebody else, is not affected by what `p` does. */
  lemma CommitterStays(s: State, t: State, p: nat)
    requires |t.ops| == |s.ops| && t.committing == s.committing && p < |s.ops| && !s.ops[p].Committer?
    requires forall q :: 0 <= q < |s.ops| && q != p && s.ops[q].Committer? ==> t.ops[q].Committer?
    requires s.committing ==> exists q :: 0 <= q < |s.ops| && s.ops[q].Committer?
    ensures t.committing ==> exists q :: 0 <= q < |t.ops| && t.ops[q].Committer?
  {
    if s.committing {
      var q :| 0 <= q < |s.ops| && s.ops[q].Committer?;
      assert t.ops[q].Committer?;
    }
  }

  /** log_write panics exactly on a full list, and then only for a block that is in it already; the operation is
      one that has used up all MAXOPBLOCKS. */
  lemma LogWritePanics(s: State, p: nat, b: nat, limit: nat)
    requires Inv(s, limit) && Enabled(s, LogWrite(p, b)) && Within(s, LogWrite(p, b), limit)
    ensures |s.lh| <= s.cap && s.outstanding >= 1
    ensures |s.lh| == s.cap ==> b in s.lh && limit == s.maxOp == s.ops[p].added
  {
    CountZero(s.ops, p);
    ModestOps(s.ops, limit, s.maxOp);
    UnspentAtLeast(s.ops, s.maxOp, p);
    UnspentNonNegative(s.ops, s.maxOp);
    hide Count, Unspent, Need;
    OneMore(s.ops[p].logged, b);
  }

  lemma OneMore(logged: set<nat>, b: nat)
    ensures |logged + {b}| == if b in logged then |logged| else |logged| + 1
  {
    if b in logged {
      assert logged + {b} == logged;
    }
  }

  lemma LogWriteKeeps(s: State, p: nat, b: nat, limit: nat)
    requires Inv(s, limit) && Enabled(s, LogWrite(p, b)) && Within(s, LogWrite(p, b), limit) && |s.lh| < s.cap
    ensures Inv(Apply(s, LogWrite(p, b)), limit)
  {
    LogWritePanics(s, p, b, limit);
    var t := Apply(s, LogWrite(p, b));
    CountUpdate(s.ops, p, t.ops[p]);
    UnspentUpdate(s.ops, p, t.ops[p], s.maxOp);
    hide Count, Unspent, Need;
    assert b !in s.lh ==> b !in s.ops[p].logged;
    OneMore(s.ops[p].logged, b);
    assert forall q :: 0 <= q < |s.ops| && q != p ==> t.ops[q] == s.ops[q];
    ModestOps(t.ops, limit, s.maxOp);
    UnspentAtLeast(t.ops, s.maxOp, p);
  }

  /** The last operation out becomes the committer. */
  lemma EndLastKeeps(s: State, p: nat, limit: nat)
    requires Inv(s, limit) && Enabled(s, End(p)) && s.outstanding == 1
    ensures Inv(Apply(s, End(p)), limit)
  {
    ModestOps(s.ops, limit, s.maxOp);
    UnspentAtLeast(s.ops, s.maxOp, p);
    CountUpdate(s.ops, p, Committer);
    UnspentUpdate(s.ops, p, Committer, s.maxOp);
    hide Count, Unspent, Need;
    assert Apply(s, End(p)).ops[p].Committer?;
  }

  lemma EndKeeps(s: State, p: nat, limit: nat)
    requires Inv(s, limit) && Enabled(s, End(p))
    ensures Inv(Apply(s, End(p)), limit)
  {
    CountZero(s.ops, p);
    if s.outstanding == 1 {
      hide Inv;
      EndLastKeeps(s, p, limit);
    } else {
      ModestOps(s.ops, limit, s.maxOp);
      UnspentAtLeast(s.ops, s.maxOp, p);
      CountUpdate(s.ops, p, Out);
      UnspentUpdate(s.ops, p, Out, s.maxOp);
      WokenSums(s.ops[p := Out], s.maxOp);
      hide Count, Unspent, Need;
    }
  }

  lemma CommitClearKeeps(s: State, p: nat, limit: nat)
    requires Inv(s, limit) && Enabled(s, CommitClear(p))
    ensures Inv(Apply(s, CommitClear(p)), limit)
  {
    NobodyIn(s.ops);
    hide Count, Unspent, Need;
    assert Apply(s, CommitClear(p)).ops[p].Committer?;
  }

  lemma CommitDoneKeeps(s: State, p: nat, limit: nat)
    requires Inv(s, limit) && Enabled(s, CommitDone(p))
    ensures Inv(Apply(s, CommitDone(p)), limit)
  {
    CountUpdate(s.ops, p, Out);
    UnspentUpdate(s.ops, p, Out, s.maxOp);
    WokenSums(s.ops[p := Out], s.maxOp);
    hide Count, Unspent, Need;
  }

  lemma KillKeeps(s: State, p: nat, limit: nat)
    requires Inv(s, limit) && Enabled(s, Kill(p))
    ensures Inv(Apply(s, Kill(p)), limit)
  {
    CountUpdate(s.ops, p, Out);
    UnspentUpdate(s.ops, p, Out, s.maxOp);
    hide Count, Unspent, Need;
    CommitterStays(s, Apply(s, Kill(p)), p);
  }

  /** Every step keeps the invariant, except log_write on a full list. */
  lemma StepKeepsInv(s: State, step: Step, limit: nat)
    requires Inv(s, limit) && Enabled(s, step) && Within(s, step, limit) && s.maxOp > 0
    ensures if step.LogWrite? && |s.lh| == s.cap then Apply(s, step).panicked && step.b in s.lh && limit == s.maxOp
            else Inv(Apply(s, step), limit)
    ensures Apply(s, step).maxOp == s.maxOp && Apply(s, step).cap == s.cap
  {
    hide Inv;
    match step
    case Begin(p) => BeginKeeps(s, p, limit);
    case LogWrite(p, b) =>
      LogWritePanics(s, p, b, limit);
      if |s.lh| < s.cap {
        LogWriteKeeps(s, p, b, limit);
      }
    case End(p) => EndKeeps(s, p, limit);
    case CommitClear(p) => CommitClearKeeps(s, p, limit);
    case CommitDone(p) => CommitDoneKeeps(s, p, limit);
    case Kill(p) => KillKeeps(s, p, limit);
  }

  lemma {:induction false} RunKeepsInv(s: State, steps: seq<Step>, t: State, limit: nat)
    requires Inv(s, limit) && s.maxOp > 0 && Run(s, steps, t, limit)
    ensures (t.panicked ==> limit == s.maxOp) && (!t.panicked ==> Inv(t, limit)) && t.maxOp == s.maxOp && t.cap == s.cap
    decreases |steps|
  {
    NotPanicked(s, limit);
    hide Inv, Apply, Enabled, Within;
    if steps != [] {
      StepKeepsInv(s, steps[0], limit);
      var u := Apply(s, steps[0]);
      if u.panicked {
        if |steps| > 1 {
          PanicStops(u, steps[1]);
        }
      } else {
        RunKeepsInv(u, steps[1..], t, limit);
      }
    }
  }

  lemma NotPanicked(s: State, limit: nat)
    requires Inv(s, limit)
    ensures !s.panicked
  {
  }

  lemma PanicStops(s: State, step: Step)
    ensures s.panicked ==> !Enabled(s, step)
  {
  }

  // ---------------------------------------------------------------- the promises

  lemma {:induction false} InitialSums(ops: seq<Op>, maxOp: nat)
    requires forall p :: 0 <= p < |ops| ==> ops[p].Out?
    ensures Count(ops) == 0 && Unspent(ops, maxOp) == 0
    decreases |ops|
  {
    if ops != [] {
      InitialSums(ops[..|ops| - 1], maxOp);
    }
  }

  /** Operations of fewer than MAXOPBLOCKS distinct blocks: no panic in any interleaving, nobody commits
      while an operation runs, the list has no repetition, it and the unspent reservations fit in the
      log, a buffer is left over for commit, a process asleep in begin_op has a reason to be, and a commit is due
      and somebody at it as soon as no operation runs and blocks are listed. */
  lemma GroupCommitReservation(s: State, steps: seq<Step>, t: State)
    requires Initial(s) && s.maxOp > 0 && Run(s, steps, t, s.maxOp - 1)
    ensures !t.panicked
    ensures t.committing ==> t.outstanding == 0 && forall p :: 0 <= p < |t.ops| ==> !t.ops[p].In?
    ensures Distinct(t.lh) && |t.lh| + Unspent(t.ops, t.maxOp) <= s.cap && |t.lh| < s.cap
    ensures forall p :: 0 <= p < |t.ops| && t.ops[p].Asleep? ==> t.committing || Full(t)
    ensures t.outstanding == 0 && t.lh != [] ==> t.committing
    ensures t.committing ==> exists p :: 0 <= p < |t.ops| && t.ops[p].Committer?
  {
    InitialSums(s.ops, s.maxOp);
    RunKeepsInv(s, steps, t, s.maxOp - 1);
    if t.committing {
      NobodyIn(t.ops);
    }
  }

  /** Nobody is stuck: an operation can log any block and end, the committer can clear the list and then finish; and
      with
      a log of at least MAXOPBLOCKS blocks a process asleep in begin_op has somebody to wait for. */
  lemma NeverStuck(s: State, steps: seq<Step>, t: State, p: nat)
    requires Initial(s) && 0 < s.maxOp <= s.cap && Run(s, steps, t, s.maxOp - 1) && p < |t.ops|
    ensures t.ops[p].Out? ==> Enabled(t, Begin(p))
    ensures t.ops[p].In? ==> Enabled(t, End(p)) && forall b :: Enabled(t, LogWrite(p, b))
    ensures t.ops[p].Committer? ==> Enabled(t, CommitClear(p)) && Enabled(Apply(t, CommitClear(p)), CommitDone(p))
    ensures t.ops[p].Asleep? ==> exists q :: 0 <= q < |t.ops| && (t.ops[q].In? || t.ops[q].Committer?)
  {
    InitialSums(s.ops, s.maxOp);
    RunKeepsInv(s, steps, t, s.maxOp - 1);
    hide Run;
    if t.ops[p].Asleep? && !t.committing && t.outstanding > 0 {
      SomebodyIn(t.ops);
    }
  }

  lemma {:induction false} SomebodyIn(ops: seq<Op>)
    requires Count(ops) > 0
    ensures exists q :: 0 <= q < |ops| && ops[q].In?
    decreases |ops|
  {
    var n := |ops| - 1;
    if !ops[n].In? {
      SomebodyIn(ops[..n]);
      var q :| 0 <= q < n && ops[..n][q].In?;
      assert ops[q].In?;
    }
  }

  /** Some commit in the run has all of `bs` on its list. */
  ghost predicate Flushes(s: State, steps: seq<Step>, bs: set<nat>)
    decreases |steps|
  {
    && steps != [] && Enabled(s, steps[0])
    && ((steps[0].CommitClear? && forall b :: b in bs ==> b in s.lh) || Flushes(Apply(s, steps[0]), steps[1..], bs))
  }

  lemma ListGrows(s: State, step: Step)
    requires Enabled(s, step) && !step.CommitClear?
    ensures forall b :: b in s.lh ==> b in Apply(s, step).lh
  {
  }

  lemma {:induction false} ListedUntilCommit(s: State, steps: seq<Step>, t: State, limit: nat, bs: set<nat>)
    requires Inv(s, limit) && s.maxOp > 0 && Run(s, steps, t, limit) && bs != {} && forall b :: b in bs ==> b in s.lh
    requires !t.panicked && t.outstanding == 0 && !t.committing
    ensures Flushes(s, steps, bs)
    decreases |steps|
  {
    if steps == [] {
      var b :| b in bs;
      assert b in s.lh;
      DueNow(s, limit);
    } else {
      hide Inv, Apply, Enabled, Within;
      StepKeepsInv(s, steps[0], limit);
      var u := Apply(s, steps[0]);
      if u.panicked {
        if |steps| > 1 {
          PanicStops(u, steps[1]);
        }
      } else if !steps[0].CommitClear? {
        ListGrows(s, steps[0]);
        ListedUntilCommit(u, steps[1..], t, limit, bs);
      }
    }
  }

  lemma DueNow(s: State, limit: nat)
    requires Inv(s, limit)
    ensures s.outstanding == 0 && s.lh != [] ==> s.committing
  {
  }

  /** The blocks that process `p` has passed to log_write since its last begin_op. */
  ghost function Passed(s: State, steps: seq<Step>, p: nat, bs: set<nat>): set<nat>
    decreases |steps|
  {
    if steps == [] || !Enabled(s, steps[0]) then bs
    else
      var step := steps[0];
      var bs' := if step == Begin(p) then {} else if step.LogWrite? && step.p == p then bs + {step.b} else bs;
      Passed(Apply(s, step), steps[1..], p, bs')
  }

  lemma {:induction false} LoggedIsPassed(s: State, steps: seq<Step>, t: State, limit: int, p: nat, bs: set<nat>)
    requires Run(s, steps, t, limit) && p < |s.ops| && (s.ops[p].In? ==> s.ops[p].logged == bs) && !t.panicked
    ensures p < |t.ops| && (t.ops[p].In? ==> t.ops[p].logged == Passed(s, steps, p, bs))
    decreases |steps|
  {
    if steps != [] {
      var step, u := steps[0], Apply(s, steps[0]);
      if u.panicked && |steps| > 1 {
        PanicStops(u, steps[1]);
      }
      LoggedIsPassed(u, steps[1..], t, limit, p,
        if step == Begin(p) then {} else if step.LogWrite? && step.p == p then bs + {step.b} else bs);
    }
  }

  /** Every operation is committed: all the blocks it has passed to log_write by `u` are on the list of one commit
      before
      the log is next found with no operation running and no commit under way. */
  lemma EveryOperationCommitted(s: State, before: seq<Step>, u: State, p: nat, steps: seq<Step>, t: State)
    requires Initial(s) && s.maxOp > 0 && Run(s, before, u, s.maxOp - 1) && Run(u, steps, t, s.maxOp - 1)
    requires p < |s.ops| && p < |u.ops| && u.ops[p].In? && Passed(s, before, p, {}) != {}
    requires t.outstanding == 0 && !t.committing
    ensures !t.panicked && Flushes(u, steps, Passed(s, before, p, {}))
  {
    InitialSums(s.ops, s.maxOp);
    RunKeepsInv(s, before, u, s.maxOp - 1);
    RunKeepsInv(u, steps, t, s.maxOp - 1);
    hide Run;
    LoggedIsPassed(s, before, u, s.maxOp - 1, p, {});
    ListedUntilCommit(u, steps, t, s.maxOp - 1, u.ops[p].logged);
  }

  /** With operations of up to MAXOPBLOCKS distinct blocks, the only panic in any run is that of log_write, it comes
      exactly when the list is full, and the block it is called for is then in the list already, so that it
      would have been absorbed. */
  lemma PanicsExactly(s: State, steps: seq<Step>, t: State, step: Step)
    requires Initial(s) && s.maxOp > 0 && Run(s, steps, t, s.maxOp) && Enabled(t, step) && Within(t, step, s.maxOp)
    ensures Apply(t, step).panicked <==> step.LogWrite? && |t.lh| == s.cap
    ensures Apply(t, step).panicked ==> step.b in t.lh
  {
    InitialSums(s.ops, s.maxOp);
    RunKeepsInv(s, steps, t, s.maxOp);
    PanicStops(t, step);
    hide Run;
    StepKeepsInv(t, step, s.maxOp);
  }

  // ---------------------------------------------------------------- the panic can be reached

  lemma {:induction false} RunMore(s: State, steps: seq<Step>, t: State, step: Step, limit: int)
    requires Run(s, steps, t, limit) && Enabled(t, step) && Within(t, step, limit)
    ensures Run(s, steps + [step], Apply(t, step), limit)
    decreases |steps|
  {
    hide Enabled, Apply, Within;
    if steps == [] {
      assert (steps + [step])[1..] == [];
    } else {
      RunMore(Apply(s, steps[0]), steps[1..], t, step, limit);
      assert (steps + [step])[1..] == steps[1..] + [step];
    }
  }

  /** `n` processes, the first `j` of which have begun an operation. */
  function Begun(maxOp: nat, cap: nat, n: nat, j: nat): State {
    State(maxOp, cap, seq(n, q => if q < j then In({}, 0) else Out), j, false, [], false)
  }

  lemma BeginNext(maxOp: nat, k: nat, n: nat, j: nat)
    requires maxOp > 0 && j < k <= n
    ensures var s := Begun(maxOp, k * maxOp, n, j);
            Enabled(s, Begin(j)) && Within(s, Begin(j), maxOp)
              && Apply(s, Begin(j)) == Begun(maxOp, k * maxOp, n, j + 1)
  {
    var s, t := Begun(maxOp, k * maxOp, n, j), Begun(maxOp, k * maxOp, n, j + 1);
    assert (j + 1) * maxOp <= k * maxOp;
    assert s.ops[j := In({}, 0)] == t.ops;
  }

  lemma {:induction false} BeginMany(maxOp: nat, k: nat, n: nat, j: nat) returns (steps: seq<Step>)
    requires maxOp > 0 && j <= k <= n
    ensures Run(Begun(maxOp, k * maxOp, n, 0), steps, Begun(maxOp, k * maxOp, n, j), maxOp)
    decreases j
  {
    hide Begun, Enabled, Within, Apply;
    if j == 0 {
      steps := [];
    } else {
      steps := BeginMany(maxOp, k, n, j - 1);
      hide Run;
      BeginNext(maxOp, k, n, j - 1);
      RunMore(Begun(maxOp, k * maxOp, n, 0), steps, Begun(maxOp, k * maxOp, n, j - 1), Begin(j - 1), maxOp);
      steps := steps + [Begin(j - 1)];
    }
  }

  /** The list holds no number beyond its length, so its length is a fresh block number. */
  predicate Compact(lh: seq<nat>) {
    forall x :: x in lh ==> x < |lh|
  }

  /** Operation `p` has appended as many blocks as it has logged, and they are in the list. */
  predicate Logs(s: State, p: nat, m: nat) {
    p < |s.ops| && s.ops[p].In? && s.ops[p].added == |s.ops[p].logged| == m
      && forall x :: x in s.ops[p].logged ==> x in s.lh
  }

  /** Operation `p` logs one fresh block after the other, up to `m` of them. */
  lemma {:induction false} FillOne(s0: State, pre: seq<Step>, s: State, p: nat, m: nat)
    returns (steps: seq<Step>, t: State)
    requires Run(s0, pre, s, s.maxOp) && !s.panicked && s.outstanding >= 1 && Logs(s, p, 0) && Compact(s.lh)
    requires m <= s.maxOp && |s.lh| + m <= s.cap
    ensures Run(s0, steps, t, s.maxOp) && Logs(t, p, m) && Compact(t.lh) && |t.lh| == |s.lh| + m
    ensures t == s.(ops := s.ops[p := t.ops[p]], lh := t.lh) && forall x :: x in s.lh ==> x in t.lh
    decreases m
  {
    hide Run;
    if m == 0 {
      steps, t := pre, s;
      assert s.ops[p := s.ops[p]] == s.ops;
    } else {
      var u;
      steps, u := FillOne(s0, pre, s, p, m - 1);
      var b := |u.lh|;
      assert b !in u.lh && b !in u.ops[p].logged;
      RunMore(s0, steps, u, LogWrite(p, b), s.maxOp);
      steps, t := steps + [LogWrite(p, b)], Apply(u, LogWrite(p, b));
      assert |u.ops[p].logged + {b}| == m;
      assert s.ops[p := u.ops[p]][p := t.ops[p]] == s.ops[p := t.ops[p]];
    }
  }

  /** The first `j` operations have used up their reservations, the others of the `k` have not begun to. */
  predicate Spent(s: State, maxOp: nat, k: nat, j: nat) {
    && s.maxOp == maxOp > 0 && s.cap == k * maxOp && !s.panicked && s.outstanding == k >= 1 && k <= |s.ops|
    && |s.lh| == j * maxOp && Compact(s.lh)
    && (forall q: nat :: q < k ==> Share(s, q, j))
  }

  /** Operation `q` has used all of its reservation or nothing. */
  predicate Share(s: State, q: nat, j: nat) {
    Logs(s, q, if q < j then s.maxOp else 0)
  }

  lemma {:induction false} FillMany(s0: State, pre: seq<Step>, s: State, maxOp: nat, k: nat, j: nat)
    returns (steps: seq<Step>, t: State)
    requires Run(s0, pre, s, maxOp) && Spent(s, maxOp, k, 0) && j <= k
    ensures Run(s0, steps, t, maxOp) && Spent(t, maxOp, k, j)
    decreases j
  {
    hide Run;
    if j == 0 {
      steps, t := pre, s;
    } else {
      var u;
      steps, u := FillMany(s0, pre, s, maxOp, k, j - 1);
      assert (j - 1) * maxOp + maxOp == j * maxOp <= k * maxOp;
      assert Share(u, j - 1, j - 1);
      steps, t := FillOne(s0, steps, u, j - 1, maxOp);
      var i := j - 1;
      forall q: nat | q < k ensures Share(t, q, j) {
        assert Share(u, q, i);
      }
    }
  }

  /** The limit is sharp for every MAXOPBLOCKS, every log that holds `k` times as many blocks, and every number of
      processes from `k` on: there is a run of operations of at most MAXOPBLOCKS distinct blocks that panics. */
  lemma ExactlyMaxPanics(maxOp: nat, k: nat, n: nat) returns (s: State, steps: seq<Step>, t: State)
    requires maxOp > 0 && 0 < k <= n
    ensures Initial(s) && s.maxOp == maxOp && s.cap == k * maxOp && |s.ops| == n
    ensures Run(s, steps, t, maxOp) && t.panicked
  {
    s := Begun(maxOp, k * maxOp, n, 0);
    assert k * maxOp > 0;
    var pre := BeginMany(maxOp, k, n, k);
    var b := Begun(maxOp, k * maxOp, n, k);
    hide Run;
    assert forall q: nat :: q < k ==> Share(b, q, 0);
    var u;
    steps, u := FillMany(s, pre, b, maxOp, k, k);
    hide Begun;
    assert Share(u, 0, k);
    var x :| x in u.ops[0].logged;
    OneMore(u.ops[0].logged, x);
    RunMore(s, steps, u, LogWrite(0, x), maxOp);
    steps, t := steps + [LogWrite(0, x)], Apply(u, LogWrite(0, x));
  }
}
