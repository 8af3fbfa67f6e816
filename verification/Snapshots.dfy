/** Snapshot re-points over every run: a compare-and-swap on the hash that was read, so that of the
    requests that read the same hash at most one gets to replace it. */
module Snapshots {
  import opened Wrappers
  import opened Bytes
  import opened Choke
  import opened Relay

  ghost function RowOf(s: State, g: Generation): Option<Snapshot> {
    if g in s.snapshots then Some(s.snapshots[g]) else None
  }

  /** The snapshot row has this hash now. */
  predicate Points(s: State, g: Generation, hash: Hash) {
    g in s.snapshots && s.snapshots[g].hash == hash
  }

  /** A swap whose hash is not the row's any more changes neither the rows nor the ledger; one whose
      hash is replaces exactly this row and reserves exactly the bytes by which the new object is longer
      than the size that was read, if the quota has room for them. */
  lemma SwapIsCompareAndSwap(s: State, r: Repoint, limits: Limits)
    ensures var s' := SnapshotSwap(s, r, limits);
            var row := Opened(s.usage, limits, s.now);
            var bytes := Clip(if r.newSize > r.readSize then r.newSize - r.readSize else 0);
            if Points(s, r.generation, r.readHash) && Admits(row, limits, bytes) then
              && s'.snapshots == s.snapshots[r.generation := Snapshot(r.newHash, Clip(r.newSize))]
              && s'.usage == Some(row.(storage := row.storage + bytes, upload := row.upload + bytes))
            else s' == s.(repoints := s.repoints - {r})
  {
  }

  /** Only two steps write snapshot rows: the insert of a new one, and a swap that finds the hash it read. */
  lemma RowChanges(p: Params, s: State, step: Step, g: Generation)
    requires Enabled(p, s, step) && RowOf(Next(p, s, step), g) != RowOf(s, g)
    ensures g in Next(p, s, step).snapshots
    ensures g in s.snapshots ==>
              && step.SnapshotSwapStep? && step.r.generation == g && s.snapshots[g].hash == step.r.readHash
              && Next(p, s, step).snapshots[g] == Snapshot(step.r.newHash, Clip(step.r.newSize))
  {
    hide Presign, Opened, Admits, Charged, Growth, Lists, IsEligible, DeleteRow, DeleteObject, Sign, Push;
  }

  /** Every re-point under way was made to replace the hash it read by another one. */
  ghost predicate Replacing(s: State) {
    forall r :: r in s.repoints ==> r.newHash != r.readHash
  }

  lemma StepKeepsReplacing(p: Params, s: State, step: Step)
    requires Enabled(p, s, step) && Replacing(s)
    ensures Replacing(Next(p, s, step))
  {
    hide Presign, Opened, Admits, Charged, Growth, Lists, IsEligible, DeleteRow, DeleteObject, Sign;
  }

  lemma {:induction false} RunKeepsReplacing(p: Params, s: State, steps: seq<Step>)
    requires CanRun(p, s, steps) && Replacing(s)
    ensures Replacing(Run(p, s, steps))
    decreases |steps|
  {
    hide Next, Enabled, Replacing;
    if steps != [] {
      StepKeepsReplacing(p, s, steps[0]);
      RunKeepsReplacing(p, Next(p, s, steps[0]), steps[1..]);
    }
  }

  /** Somewhere on the way a step points the row to the hash, which it did not have before. */
  ghost predicate PointedBack(p: Params, s: State, steps: seq<Step>, g: Generation, hash: Hash)
    requires CanRun(p, s, steps)
    decreases |steps|
  {
    steps != [] &&
    (|| (!Points(s, g, hash) && Points(Next(p, s, steps[0]), g, hash))
     || PointedBack(p, Next(p, s, steps[0]), steps[1..], g, hash))
  }

  lemma {:induction false} GoneUntilPointedBack(p: Params, s: State, steps: seq<Step>, g: Generation, hash: Hash)
    requires CanRun(p, s, steps) && !Points(s, g, hash) && !PointedBack(p, s, steps, g, hash)
    ensures !Points(Run(p, s, steps), g, hash)
    decreases |steps|
  {
    hide Next, Enabled, Points;
    if steps != [] {
      GoneUntilPointedBack(p, Next(p, s, steps[0]), steps[1..], g, hash);
    }
  }

  /** Over any run, of two re-points that read the same hash of a generation at most one changes the row,
      unless the row is pointed back to that hash in between: if the first one changed it, the second
      changes neither a row nor the ledger. */
  lemma OneSwapWins(p: Params, before: seq<Step>, first: Repoint, limits1: Limits,
                    between: seq<Step>, second: Repoint, limits2: Limits)
    requires CanRun(p, INIT, before)
    requires var s := Run(p, INIT, before);
             && Enabled(p, s, SnapshotSwapStep(first, limits1))
             && RowOf(SnapshotSwap(s, first, limits1), first.generation) != RowOf(s, first.generation)
             && CanRun(p, SnapshotSwap(s, first, limits1), between)
             && !PointedBack(p, SnapshotSwap(s, first, limits1), between, first.generation, first.readHash)
    requires second.generation == first.generation && second.readHash == first.readHash
    ensures var t := Run(p, SnapshotSwap(Run(p, INIT, before), first, limits1), between);
            SnapshotSwap(t, second, limits2) == t.(repoints := t.repoints - {second})
  {
    var s := Run(p, INIT, before);
    var s' := SnapshotSwap(s, first, limits1);
    var t := Run(p, s', between);
    assert Replacing(INIT);
    RunKeepsReplacing(p, INIT, before);
    SwapIsCompareAndSwap(s, first, limits1);
    assert !Points(s', first.generation, first.readHash);
    hide Run, CanRun, SnapshotSwap, PointedBack, Points;
    GoneUntilPointedBack(p, s', between, first.generation, first.readHash);
    SwapIsCompareAndSwap(t, second, limits2);
  }
}
