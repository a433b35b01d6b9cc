/** filewrite's chunks and the log: what one chunk logs is what the group commit protocol reserves for it. */
module LogBudget {
  import opened FsLayout
  import opened Machine
  import FileSystem
  import opened LogReserve

  /** Every operation is a chunk of filewrite: what it has logged so far and the next block are among the blocks of
      one. */
  ghost predicate OfChunk(sup: Super, s: State, step: Step)
    requires Enabled(s, step) && sup.bsize > 0 && s.maxOp >= 6
  {
    step.LogWrite? ==> FileSystem.ChunkSet(sup, s.maxOp, s.ops[step.p].logged + {step.b})
  }

  ghost predicate ChunkRun(sup: Super, s: State, steps: seq<Step>, t: State)
    requires sup.bsize > 0
    decreases |steps|
  {
    if steps == [] then s == t
    else
      && s.maxOp >= 6 && Enabled(s, steps[0]) && OfChunk(sup, s, steps[0])
      && ChunkRun(sup, Apply(s, steps[0]), steps[1..], t)
  }

  lemma ChunkWithin(sup: Super, s: State, step: Step)
    requires sup.bsize > 0 && s.maxOp >= 6 && sup.size <= MapBits(sup.bsize) && Enabled(s, step)
             && OfChunk(sup, s, step)
    ensures Within(s, step, s.maxOp - 1)
  {
    hide FileSystem.ChunkSet;
    if step.LogWrite? {
      FileSystem.ChunkSetSize(sup, s.maxOp, s.ops[step.p].logged + {step.b});
    }
  }

  lemma SameLimit(s: State, step: Step)
    requires Enabled(s, step)
    ensures Apply(s, step).maxOp == s.maxOp
  {
  }

  lemma {:induction false} ChunkRunWithin(sup: Super, s: State, steps: seq<Step>, t: State)
    requires sup.bsize > 0 && s.maxOp >= 6 && sup.size <= MapBits(sup.bsize) && ChunkRun(sup, s, steps, t)
    ensures Run(s, steps, t, s.maxOp - 1)
    decreases |steps|
  {
    hide Apply, Enabled, OfChunk, Within, MapBits;
    if steps != [] {
      ChunkWithin(sup, s, steps[0]);
      SameLimit(s, steps[0]);
      ChunkRunWithin(sup, Apply(s, steps[0]), steps[1..], t);
    }
  }

  /** With one free map block, chunks of filewrite by any number of processes in any interleaving never overrun the log:
      no panic, no list longer than the log, and everybody asleep in begin_op has a reason to be. */
  lemma ChunksNeverPanic(sup: Super, s: State, steps: seq<Step>, t: State)
    requires sup.bsize > 0 && sup.size <= MapBits(sup.bsize) && s.maxOp >= 6 && Initial(s) && ChunkRun(sup, s, steps, t)
    ensures !t.panicked && Distinct(t.lh) && |t.lh| + Unspent(t.ops, t.maxOp) <= s.cap && |t.lh| < s.cap
    ensures t.committing ==> forall p :: 0 <= p < |t.ops| ==> !t.ops[p].In?
    ensures forall p :: 0 <= p < |t.ops| && t.ops[p].Asleep? ==> t.committing || Full(t)
    ensures t.outstanding == 0 && t.lh != [] ==> t.committing
  {
    ChunkRunWithin(sup, s, steps, t);
    GroupCommitReservation(s, steps, t);
  }
}
