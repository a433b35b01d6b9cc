/**
  Who runs next on one CPU under the priority scheduler (versions 6-8): its scan, and what repeated
  dispatches do to the priorities.
*/
module SchedulerFairness {

  datatype Entry = Entry(runnable: bool, priority: nat)

  /** `r` is the lowest entry among the runnable ones of highest priority, or -1 if none is runnable. */
  predicate Best(ps: seq<Entry>, r: int) {
    if r == -1 then forall q :: 0 <= q < |ps| ==> !ps[q].runnable
    else
      && 0 <= r < |ps| && ps[r].runnable
      && forall q :: 0 <= q < |ps| && ps[q].runnable ==>
           ps[q].priority <= ps[r].priority && (q < r ==> ps[q].priority < ps[r].priority)
  }

  lemma BestUnique(ps: seq<Entry>, r: int, q: int)
    requires Best(ps, r) && Best(ps, q)
    ensures r == q
  {
    if r != -1 && q != -1 {
      assert ps[q].priority == ps[r].priority;
    }
  }

  /** Phase 1 of the scheduler. */
  method Choose(proc: array<Entry>) returns (best: int)
    ensures Best(proc[..], best)
  {
    best := -1;
    var bestPriority: int := -1;
    var p := 0;
    while p < proc.Length
      invariant 0 <= p <= proc.Length && Best(proc[..p], best)
      invariant bestPriority == if best == -1 then -1 else proc[best].priority
    {
      assert proc[..p + 1] == proc[..p] + [proc[p]];
      if proc[p].runnable && proc[p].priority > bestPriority {
        best, bestPriority := p, proc[p].priority;
      }
      p := p + 1;
    }
    assert proc[..p] == proc[..];
  }

  // ---------------------------------------------------------------- repeated dispatches without wakeups

  /** How a dispatched process gives the CPU back, and which entries it forked into meanwhile, if any. */
  datatype Outcome = Outcome(leave: Leave, born: seq<nat>)
  datatype Leave = Yield | Block          // Block: sleep or exit

  /** yield's decay, or no longer runnable. */
  function Left(e: Entry, leave: Leave): Entry {
    match leave
    case Yield => e.(priority := if e.priority > 0 then e.priority - 1 else 0)
    case Block => e.(runnable := false)
  }

  /** Forked children start at PRIORITY_BASE, each in an entry that was not runnable before. */
  function Born(ps: seq<Entry>, born: seq<nat>): (r: seq<Entry>)
    ensures |r| == |ps|
    ensures forall q :: 0 <= q < |ps| ==> r[q] == if q in born && !ps[q].runnable then Entry(true, 0) else ps[q]
  {
    seq(|ps|, q requires 0 <= q < |ps| => if q in born && !ps[q].runnable then Entry(true, 0) else ps[q])
  }

  /** The table after dispatching `r`. */
  function Dispatched(ps: seq<Entry>, r: int, out: Outcome): (t: seq<Entry>)
    ensures |t| == |ps|
  {
    if 0 <= r < |ps| then Born(ps, out.born)[r := Left(ps[r], out.leave)] else ps
  }

  /** One CPU alone, no wakeup and no kill: every round dispatches the best entry. */
  ghost predicate Rounds(ps: seq<Entry>, outs: seq<Outcome>, picks: seq<int>, t: seq<Entry>)
    decreases |outs|
  {
    |picks| == |outs| &&
    if outs == [] then t == ps
    else Best(ps, picks[0]) && Rounds(Dispatched(ps, picks[0], outs[0]), outs[1..], picks[1..], t)
  }

  function Sum(ps: seq<Entry>): nat {
    if ps == [] then 0 else Sum(ps[..|ps| - 1]) + if ps[|ps| - 1].runnable then ps[|ps| - 1].priority else 0
  }

  function Weight(e: Entry): nat {
    if e.runnable then e.priority else 0
  }

  lemma {:induction false} SumUpdate(ps: seq<Entry>, i: nat, e: Entry)
    requires i < |ps|
    ensures Sum(ps[i := e]) == Sum(ps) - Weight(ps[i]) + Weight(e)
    decreases |ps|
  {
    var n := |ps| - 1;
    if i == n {
      assert ps[i := e][..n] == ps[..n];
    } else {
      assert ps[i := e][..n] == ps[..n][i := e];
      SumUpdate(ps[..n], i, e);
    }
  }

  lemma {:induction false} SumZero(ps: seq<Entry>)
    ensures Sum(ps) == 0 <==> forall q :: 0 <= q < |ps| && ps[q].runnable ==> ps[q].priority == 0
    decreases |ps|
  {
    if ps != [] {
      var n := |ps| - 1;
      SumZero(ps[..n]);
      assert forall q :: 0 <= q < n ==> ps[q] == ps[..n][q];
    }
  }

  lemma {:induction false} SumBound(ps: seq<Entry>, boost: nat)
    requires forall q :: 0 <= q < |ps| ==> ps[q].priority <= boost
    ensures Sum(ps) <= boost * |ps|
    decreases |ps|
  {
    if ps != [] {
      var n := |ps| - 1;
      SumBound(ps[..n], boost);
      assert boost * |ps| == boost * n + boost;
    }
  }

  lemma {:induction false} SameWeights(ps: seq<Entry>, qs: seq<Entry>)
    requires |ps| == |qs| && forall q :: 0 <= q < |ps| ==> Weight(ps[q]) == Weight(qs[q])
    ensures Sum(ps) == Sum(qs)
    decreases |ps|
  {
    if ps != [] {
      SameWeights(ps[..|ps| - 1], qs[..|qs| - 1]);
    }
  }

  /** What a dispatch costs: a process that yields one unit of priority if it has any, one that blocks all of its own.
      */
  function Cost(e: Entry, leave: Leave): nat {
    if leave.Yield? then if e.priority > 0 then 1 else 0 else e.priority
  }

  /** The sum of the runnable priorities falls at every dispatch, by exactly what it costs, until it is 0, and stays
      there. */
  lemma DispatchDecays(ps: seq<Entry>, r: int, out: Outcome)
    requires Best(ps, r)
    ensures r != -1 ==> Sum(Dispatched(ps, r, out)) == Sum(ps) - Cost(ps[r], out.leave)
    ensures Sum(ps) > 0 ==> r != -1 && Cost(ps[r], out.leave) > 0 && Sum(Dispatched(ps, r, out)) < Sum(ps)
    ensures Sum(ps) == 0 ==> Sum(Dispatched(ps, r, out)) == 0
  {
    hide Sum;
    SumZero(ps);
    if r != -1 {
      SameWeights(ps, Born(ps, out.born));
      SumUpdate(Born(ps, out.born), r, Left(ps[r], out.leave));
    }
  }

  lemma {:induction false} RoundsDecay(ps: seq<Entry>, outs: seq<Outcome>, picks: seq<int>, t: seq<Entry>)
    requires Rounds(ps, outs, picks, t)
    ensures |t| == |ps| && Sum(t) <= (if Sum(ps) >= |outs| then Sum(ps) - |outs| else 0)
    decreases |outs|
  {
    hide Sum, Best, Dispatched;
    if outs != [] {
      DispatchDecays(ps, picks[0], outs[0]);
      RoundsDecay(Dispatched(ps, picks[0], outs[0]), outs[1..], picks[1..], t);
    }
  }

  /** As long as everybody yields and there is priority left, each dispatch takes exactly one unit: a boost lasts. */
  lemma {:induction false} YieldsDecayByOne(ps: seq<Entry>, outs: seq<Outcome>, picks: seq<int>, t: seq<Entry>)
    requires Rounds(ps, outs, picks, t) && |outs| <= Sum(ps) && forall k :: 0 <= k < |outs| ==> outs[k].leave.Yield?
    ensures Sum(t) == Sum(ps) - |outs|
    decreases |outs|
  {
    hide Sum, Best, Dispatched;
    if outs != [] {
      DispatchDecays(ps, picks[0], outs[0]);
      YieldsDecayByOne(Dispatched(ps, picks[0], outs[0]), outs[1..], picks[1..], t);
    }
  }

  /** `r` is the lowest runnable entry. */
  predicate Lowest(ps: seq<Entry>, r: int) {
    0 <= r < |ps| && ps[r].runnable && forall q :: 0 <= q < r ==> !ps[q].runnable
  }

  /** After PRIORITY_BOOST * NPROC dispatches without a wakeup, priorities no longer matter: the next choice,
      and every later one, is the lowest runnable entry. */
  lemma ThenLowestIndexForever(ps: seq<Entry>, boost: nat, outs: seq<Outcome>, picks: seq<int>, t: seq<Entry>, r: int)
    requires forall q :: 0 <= q < |ps| ==> ps[q].priority <= boost
    requires Rounds(ps, outs, picks, t) && |outs| >= boost * |ps| && Best(t, r)
    ensures r == -1 || Lowest(t, r)
    ensures Sum(t) == 0
  {
    hide Sum, Rounds;
    SumBound(ps, boost);
    RoundsDecay(ps, outs, picks, t);
    SumZero(t);
  }

  /** So it is not round-robin.  Once priorities are at the base, the lowest runnable process is the only one that
      runs if and only if, in every round but the last, it gave the CPU back by yielding and forked
      into no entry below itself. */
  lemma {:induction false} LowestStarvesOthers(ps: seq<Entry>, low: nat, outs: seq<Outcome>, picks: seq<int>,
                          t: seq<Entry>)
    requires Lowest(ps, low) && Sum(ps) == 0 && Rounds(ps, outs, picks, t)
    ensures (forall k :: 0 <= k < |picks| ==> picks[k] == low) <==>
            (forall k :: 0 <= k < |outs| - 1 ==> Keeps(outs[k], low))
    decreases |outs|
  {
    assert |picks| == |outs|;
    hide Sum, Rounds;
    if outs != [] {
      RoundsHead(ps, outs, picks, t);
      LowestIsBest(ps, low);
      BestUnique(ps, picks[0], low);
      var next := Dispatched(ps, low, outs[0]);
      DispatchDecays(ps, low, outs[0]);
      if |outs| > 1 {
        RoundsHead(next, outs[1..], picks[1..], t);
        KeepsOrLoses(ps, low, outs[0], picks[1]);
        if Keeps(outs[0], low) {
          LowestStarvesOthers(next, low, outs[1..], picks[1..], t);
          assert forall k :: 0 < k < |picks| ==> picks[k] == picks[1..][k - 1];
          assert forall k :: 0 < k < |outs| ==> outs[k] == outs[1..][k - 1];
          assert forall k :: 0 <= k < |picks| - 1 ==> picks[1..][k] == picks[k + 1];
          assert forall k :: 0 <= k < |outs| - 1 ==> outs[1..][k] == outs[k + 1];
        }
      }
    }
  }

  predicate Keeps(out: Outcome, low: nat) {
    out.leave.Yield? && forall q :: q in out.born ==> q >= low
  }

  lemma RoundsHead(ps: seq<Entry>, outs: seq<Outcome>, picks: seq<int>, t: seq<Entry>)
    requires Rounds(ps, outs, picks, t) && outs != []
    ensures |picks| == |outs| && Best(ps, picks[0])
            && Rounds(Dispatched(ps, picks[0], outs[0]), outs[1..], picks[1..], t)
  {
  }

  lemma LowestIsBest(ps: seq<Entry>, low: nat)
    requires Lowest(ps, low) && Sum(ps) == 0
    ensures Best(ps, low)
  {
    SumZero(ps);
  }

  /** After a round of the lowest entry, the next choice is the lowest entry again exactly if it kept its place. */
  lemma KeepsOrLoses(ps: seq<Entry>, low: nat, out: Outcome, next: int)
    requires Lowest(ps, low) && Sum(ps) == 0 && Best(Dispatched(ps, low, out), next)
    ensures next == low <==> Keeps(out, low)
    ensures Keeps(out, low) ==> Lowest(Dispatched(ps, low, out), low)
  {
    hide Sum;
    var t := Dispatched(ps, low, out);
    SumZero(ps);
    LowestIsBest(ps, low);
    DispatchDecays(ps, low, out);
    SumZero(t);
    if Keeps(out, low) {
      assert Lowest(t, low);
      LowestIsBest(t, low);
      BestUnique(t, next, low);
    } else if out.leave.Yield? {
      var q :| q in out.born && q < low;
      assert t[q].runnable && t[q].priority == 0;
    }
  }

  /** A run of any length on a table of any size from 2 on: all entries runnable at base priority, every dispatched
      process yields, and only entry 0 is ever dispatched. */
  lemma {:induction false} StarvingRun(n: nat, rounds: nat)
    returns (ps: seq<Entry>, outs: seq<Outcome>, picks: seq<int>)
    requires n >= 2
    ensures |ps| == n && (forall q :: 0 <= q < n ==> ps[q] == Entry(true, 0))
    ensures |outs| == rounds && (forall k :: 0 <= k < rounds ==> outs[k] == Outcome(Yield, []))
    ensures Rounds(ps, outs, picks, ps) && forall k :: 0 <= k < |picks| ==> picks[k] == 0
    decreases rounds
  {
    ps := seq(n, _ => Entry(true, 0));
    if rounds == 0 {
      outs, picks := [], [];
    } else {
      var ps1;
      ps1, outs, picks := StarvingRun(n, rounds - 1);
      assert ps1 == ps;
      assert Dispatched(ps, 0, Outcome(Yield, [])) == ps;
      assert Best(ps, 0);
      var outs', picks' := [Outcome(Yield, [])] + outs, [0] + picks;
      assert outs'[1..] == outs && picks'[1..] == picks;
      outs, picks := outs', picks';
    }
  }
}
