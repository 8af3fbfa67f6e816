/** The relay's usage ledger over every run: what is charged, what is refunded, and what the
    stored objects can weigh. */
module RelayLedger {
  import opened Wrappers
  import opened Bytes
  import opened Choke
  import opened Sums
  import opened Relay

  ghost function BlobSizes(s: State): map<Hash, nat> { map h | h in s.blobs :: s.blobs[h].size }

  ghost function SnapshotSizes(s: State): map<Generation, nat> {
    map g | g in s.snapshots :: s.snapshots[g].size
  }

  ghost function StorageCounter(s: State): int {
    if s.usage.Some? then s.usage.value.storage else 0
  }

  /** The ledger identity: the storage counter is the live blobs, plus everything charged for
      snapshots, plus everything pushed. */
  ghost predicate Balanced(s: State) {
    StorageCounter(s) == Sum(BlobSizes(s)) + Sum(s.charged) + s.pushed
  }

  /** Each snapshot generation was charged at least the size it records, and at least every size
      that an unfinished re-point has read. */
  ghost predicate ChargedEnough(s: State) {
    && s.charged.Keys == s.snapshots.Keys
    && (forall g :: g in s.snapshots ==> s.snapshots[g].size <= s.charged[g])
    && (forall r :: r in s.repoints ==> r.generation in s.charged && r.readSize <= s.charged[r.generation])
  }

  /** The sweep's list still describes the rows it names. */
  ghost predicate ListStands(s: State) {
    s.sweep.Deleting? ==>
      && Distinct(s.sweep.todo)
      && forall e :: e in s.sweep.todo ==> e.hash in s.blobs && s.blobs[e.hash].size == e.size
  }

  ghost predicate Ledger(s: State) {
    Balanced(s) && ChargedEnough(s) && ListStands(s)
  }

  lemma PresignUsage(s: State, part: Part, hash: Hash, size: u64, limits: Limits, stamp: Time)
    ensures var s' := Presign(s, part, hash, size, limits, stamp);
            s' != s ==>
              && (hash in s.blobs ==> s'.usage == s.usage)
              && (hash !in s.blobs ==>
                    && Admits(Opened(s.usage, limits, s.now), limits, size)
                    && s'.usage == Some(Charged(Opened(s.usage, limits, s.now), size)))
  {
    hide Admits, Charged, Opened, Dropped, AddRef;
  }

  lemma PresignCharges(s: State, part: Part, hash: Hash, size: u64, limits: Limits, stamp: Time)
    requires Counted(s)
    ensures var s' := Presign(s, part, hash, size, limits, stamp);
            s' != s ==>
              && (hash in s.blobs ==> BlobSizes(s') == BlobSizes(s) && s'.usage == s.usage)
              && (hash !in s.blobs ==>
                    && BlobSizes(s') == BlobSizes(s)[hash := Clip(size)]
                    && Admits(Opened(s.usage, limits, s.now), limits, size)
                    && s'.usage == Some(Charged(Opened(s.usage, limits, s.now), size)))
  {
    var s' := Presign(s, part, hash, size, limits, stamp);
    PresignUsage(s, part, hash, size, limits, stamp);
    hide Presign, Admits, Charged, Opened, Counted;
    forall h | h in s'.blobs && s' != s
      ensures h in s.blobs ==> s'.blobs[h].size == s.blobs[h].size
      ensures h !in s.blobs ==> h == hash && s'.blobs[h].size == Clip(size)
    {
      PresignRow(s, part, hash, size, limits, stamp, h);
    }
    forall h | h in s.blobs && s' != s
      ensures h in s'.blobs
    {
      PresignRow(s, part, hash, size, limits, stamp, h);
    }
    if s' != s {
      PresignRow(s, part, hash, size, limits, stamp, hash);
    }
  }

  lemma PresignKeepsLedger(s: State, part: Part, hash: Hash, size: u64, limits: Limits, stamp: Time)
    requires Counted(s) && Ledger(s)
    ensures Ledger(Presign(s, part, hash, size, limits, stamp))
  {
    var s' := Presign(s, part, hash, size, limits, stamp);
    hide Presign, Admits, Counted;
    PresignCharges(s, part, hash, size, limits, stamp);
    PresignKeepsClock(s, part, hash, size, limits, stamp);
    if s' != s {
      if hash !in s.blobs {
        SumPut(BlobSizes(s), hash, Clip(size));
      }
      forall e | s'.sweep.Deleting? && e in s'.sweep.todo
        ensures e.hash in s'.blobs && s'.blobs[e.hash].size == e.size
      {
        assert e.hash in BlobSizes(s) && BlobSizes(s)[e.hash] == e.size;
        assert e.hash in BlobSizes(s');
      }
    }
  }

  lemma DeleteRowKeepsLedger(s: State)
    requires Ledger(s) && s.sweep.Deleting? && s.sweep.todo != []
    ensures Ledger(DeleteRow(s))
  {
    hide Balanced, ChargedEnough;
    DeleteRowKeepsBalance(s);
    SameCharges(s, DeleteRow(s));
  }

  lemma SameCharges(s: State, s': State)
    requires ChargedEnough(s)
    requires s'.charged == s.charged && s'.snapshots == s.snapshots && s'.repoints == s.repoints
    ensures ChargedEnough(s')
  {
  }

  lemma DeleteRowKeepsBalance(s: State)
    requires Balanced(s) && ListStands(s) && s.sweep.Deleting? && s.sweep.todo != []
    ensures Balanced(DeleteRow(s))
  {
    var e, s' := s.sweep.todo[0], DeleteRow(s);
    hide Sum;
    if s'.blobs != s.blobs {
      SizesWithout(s, s', e.hash);
      SumTakes(BlobSizes(s), e.hash);
    } else {
      SameSizes(s, s');
    }
  }

  lemma SizesWithout(s: State, s': State, h: Hash)
    requires s'.blobs == s.blobs - {h}
    ensures BlobSizes(s') == BlobSizes(s) - {h}
  {
  }

  lemma SameSizes(s: State, s': State)
    requires s'.blobs == s.blobs
    ensures BlobSizes(s') == BlobSizes(s)
  {
  }

  /** The refund's floor at zero never fires. */
  lemma RefundNeverFloors(s: State)
    requires Ledger(s) && s.sweep.Deleting? && s.sweep.todo != []
    requires s.sweep.todo[0].hash in s.blobs
    ensures StorageCounter(s) - s.sweep.todo[0].size >= 0
  {
    SumAtLeast(BlobSizes(s), s.sweep.todo[0].hash);
  }

  lemma SnapshotInsertKeepsLedger(s: State, g: Generation, hash: Hash, size: u64, limits: Limits)
    requires Ledger(s)
    ensures Ledger(SnapshotInsert(s, g, hash, size, limits))
  {
    SumPut(s.charged, g, Clip(size));
  }

  /** Metering only the growth over a size that was read earlier never falls behind, even when the
      row was re-pointed away and back in between. */
  lemma SwapKeepsLedger(s: State, r: Repoint, limits: Limits)
    requires Ledger(s) && r in s.repoints
    ensures Ledger(SnapshotSwap(s, r, limits))
  {
    hide Admits, Sum, Clip, Growth;
    SumPut(s.charged, r.generation, s.charged[r.generation] + Clip(Growth(r)));
    GrowthCovers(r, s.charged[r.generation]);
  }

  lemma GrowthCovers(r: Repoint, charged: nat)
    requires r.readSize <= charged
    ensures Clip(r.newSize) <= charged + Clip(Growth(r))
  {
  }

  lemma ScanKeepsLedger(s: State, sweep: Sweep)
    requires Ledger(s)
    requires sweep.Deleting? ==> Lists(sweep.todo, s.blobs, sweep.cutoff)
    ensures Ledger(s.(sweep := sweep))
  {
  }

  lemma DeleteObjectKeepsLedger(s: State, outcome: DeleteOutcome)
    requires Ledger(s) && s.sweep.Deleting? && s.sweep.todo != []
    ensures Ledger(DeleteObject(s, outcome))
  {
  }

  lemma StepKeepsLedger(p: Params, s: State, step: Step)
    requires Enabled(p, s, step) && Counted(s) && Ledger(s)
    ensures Ledger(Next(p, s, step))
  {
    hide Ledger, Counted, Presign, DeleteObject, DeleteRow, SnapshotInsert, SnapshotSwap, Push, Lists, Sign;
    match step
    case Tick(_) => QuietKeepsLedger(s, Next(p, s, step));
    case PresignStep(part, hash, size, limits, stamp) =>
      PresignKeepsLedger(s, part, hash, size, limits, stamp);
    case SignStep(x, sees) => SignIsQuiet(p, s, x, sees);
    case Put(_) => QuietKeepsLedger(s, Next(p, s, step));
    case SweepStart => ScanKeepsLedger(s, Started(s.now - p.grace));
    case SweepScan(todo) => ScanKeepsLedger(s, Deleting(s.sweep.cutoff, todo, false));
    case SweepObject(outcome) => DeleteObjectKeepsLedger(s, outcome);
    case SweepRow => DeleteRowKeepsLedger(s);
    case SweepStop => ScanKeepsLedger(s, Idle);
    case SnapshotInsertStep(g, hash, size, limits) => SnapshotInsertKeepsLedger(s, g, hash, size, limits);
    case SnapshotRead(r) => ReadKeepsLedger(s, r);
    case SnapshotSwapStep(r, limits) => SwapKeepsLedger(s, r, limits);
    case PushStep(bytes, limits) => PushKeepsLedger(s, bytes, limits);
  }

  lemma QuietKeepsLedger(s: State, s': State)
    requires Ledger(s)
    requires s'.blobs == s.blobs && s'.sweep == s.sweep && s'.usage == s.usage
    requires s'.snapshots == s.snapshots && s'.repoints == s.repoints
    requires s'.charged == s.charged && s'.pushed == s.pushed
    ensures Ledger(s')
  {
    SameSizes(s, s');
  }

  lemma SignIsQuiet(p: Params, s: State, x: Signing, sees: bool)
    requires Ledger(s)
    ensures Ledger(Sign(p, s, x, sees))
  {
    QuietKeepsLedger(s, Sign(p, s, x, sees));
  }

  lemma ReadKeepsLedger(s: State, r: Repoint)
    requires Ledger(s)
    requires r.generation in s.snapshots && s.snapshots[r.generation] == Snapshot(r.readHash, r.readSize)
    ensures Ledger(s.(repoints := s.repoints + {r}))
  {
    hide Sum;
    SameSizes(s, s.(repoints := s.repoints + {r}));
  }

  lemma PushKeepsLedger(s: State, bytes: u64, limits: Limits)
    requires Ledger(s)
    ensures Ledger(Push(s, bytes, limits))
  {
    hide Sum, Admits;
    SameSizes(s, Push(s, bytes, limits));
  }

  lemma {:induction false} RunKeepsLedger(p: Params, s: State, steps: seq<Step>)
    requires CanRun(p, s, steps) && Counted(s) && Stamped(p, s) && Ledger(s)
    ensures Ledger(Run(p, s, steps)) && Counted(Run(p, s, steps))
    decreases |steps|
  {
    if steps != [] {
      hide Ledger, Counted, Stamped;
      StepKeepsCounted(p, s, steps[0]);
      StepKeepsLedger(p, s, steps[0]);
      RunKeepsLedger(p, Next(p, s, steps[0]), steps[1..]);
    }
  }

  /** In every reachable state the counter is exactly the live blobs plus what was charged for
      snapshots plus what was pushed, and so never less than what is recorded as stored. */
  lemma NeverUnderMeters(p: Params, steps: seq<Step>)
    requires CanRun(p, INIT, steps)
    ensures var s := Run(p, INIT, steps);
            && StorageCounter(s) == Sum(BlobSizes(s)) + Sum(s.charged) + s.pushed
            && StorageCounter(s) >= Sum(BlobSizes(s)) + Sum(SnapshotSizes(s))
  {
    hide Run, CanRun, Counted, Sum, Ledger, BlobSizes, SnapshotSizes, StorageCounter;
    InitLedger(p);
    RunKeepsLedger(p, INIT, steps);
    LedgerCovers(Run(p, INIT, steps));
  }

  lemma LedgerCovers(s: State)
    requires Ledger(s)
    ensures StorageCounter(s) == Sum(BlobSizes(s)) + Sum(s.charged) + s.pushed
    ensures Sum(SnapshotSizes(s)) <= Sum(s.charged)
  {
    SumMonotone(SnapshotSizes(s), s.charged);
  }

  lemma InitLedger(p: Params)
    ensures Ledger(INIT) && Counted(INIT) && Stamped(p, INIT)
  {
    hide Balanced;
    NothingIsBalanced(INIT);
  }

  lemma NothingIsBalanced(s: State)
    requires s.blobs == map[] && s.charged == map[] && s.usage.None? && s.pushed == 0
    ensures Balanced(s)
  {
    hide Sum;
    SumEmpty<nat>();
    assert BlobSizes(s).Keys == {};
  }

  // ---- Runs that never re-point a snapshot --------------------------------------------------------

  lemma {:induction false} WithoutRepointChargesAreSizes(p: Params, s: State, steps: seq<Step>)
    requires CanRun(p, s, steps) && s.charged == SnapshotSizes(s)
    requires forall x :: x in steps ==> !x.SnapshotSwapStep?
    ensures Run(p, s, steps).charged == SnapshotSizes(Run(p, s, steps))
    decreases |steps|
  {
    if steps != [] {
      var step := steps[0];
      var s' := Next(p, s, step);
      if step.PresignStep? {
        PresignKeepsClock(s, step.part, step.hash, step.size, step.limits, step.stamp);
      }
      OneStepChargesSizes(p, s, step);
      WithoutRepointChargesAreSizes(p, s', steps[1..]);
    }
  }

  lemma OneStepChargesSizes(p: Params, s: State, step: Step)
    requires Enabled(p, s, step) && s.charged == SnapshotSizes(s) && !step.SnapshotSwapStep?
    ensures Next(p, s, step).charged == SnapshotSizes(Next(p, s, step))
  {
    hide Presign, Opened, Admits, Charged, SnapshotSwap, Lists, IsEligible, DeleteRow, DeleteObject, Sign, Push;
    if step.PresignStep? {
      PresignKeepsClock(s, step.part, step.hash, step.size, step.limits, step.stamp);
    }
  }

  /** Without a re-point the counter is exactly what is recorded as stored plus what was pushed. */
  lemma ExactWithoutRepoint(p: Params, steps: seq<Step>)
    requires CanRun(p, INIT, steps)
    requires forall x :: x in steps ==> !x.SnapshotSwapStep?
    ensures var s := Run(p, INIT, steps);
            StorageCounter(s) == Sum(BlobSizes(s)) + Sum(SnapshotSizes(s)) + s.pushed
  {
    NeverUnderMeters(p, steps);
    assert SnapshotSizes(INIT) == map[];
    WithoutRepointChargesAreSizes(p, INIT, steps);
  }

  // ---- Caps ---------------------------------------------------------------------------------------

  /** Every charge of the step is made under these two caps. */
  predicate UsesCaps(step: Step, storage: Option<u64>, upload: Option<u64>) {
    match step
    case PresignStep(_, _, _, limits, _) => limits.storage == storage && limits.upload == upload
    case SnapshotInsertStep(_, _, _, limits) => limits.storage == storage && limits.upload == upload
    case SnapshotSwapStep(_, limits) => limits.storage == storage && limits.upload == upload
    case PushStep(_, limits) => limits.storage == storage && limits.upload == upload
    case _ => true
  }

  predicate UnderCaps(usage: Option<Usage>, storage: Option<u64>, upload: Option<u64>) {
    usage.Some? ==> Within(usage.value.storage, storage) && Within(usage.value.upload, upload)
  }

  lemma StepStaysUnderCaps(p: Params, s: State, step: Step, storage: Option<u64>, upload: Option<u64>)
    requires Enabled(p, s, step) && UsesCaps(step, storage, upload) && UnderCaps(s.usage, storage, upload)
    requires ListStands(s)
    ensures UnderCaps(Next(p, s, step).usage, storage, upload)
  {
    hide Dropped, AddRef, Lists, IsEligible;
  }

  lemma {:induction false} RunStaysUnderCaps(
    p: Params, s: State, steps: seq<Step>, storage: Option<u64>, upload: Option<u64>)
    requires CanRun(p, s, steps) && Counted(s) && Stamped(p, s) && Ledger(s)
    requires forall x :: x in steps ==> UsesCaps(x, storage, upload)
    requires UnderCaps(s.usage, storage, upload)
    ensures UnderCaps(Run(p, s, steps).usage, storage, upload)
    decreases |steps|
  {
    if steps != [] {
      assert UsesCaps(steps[0], storage, upload);
      hide Counted, Stamped, Balanced, ChargedEnough, UsesCaps;
      StepKeepsCounted(p, s, steps[0]);
      StepKeepsLedger(p, s, steps[0]);
      StepStaysUnderCaps(p, s, steps[0], storage, upload);
      RunStaysUnderCaps(p, Next(p, s, steps[0]), steps[1..], storage, upload);
    }
  }

  /** With fixed caps neither counter ever exceeds its own. */
  lemma CapsHold(p: Params, steps: seq<Step>, storage: Option<u64>, upload: Option<u64>)
    requires CanRun(p, INIT, steps)
    requires forall x :: x in steps ==> UsesCaps(x, storage, upload)
    ensures UnderCaps(Run(p, INIT, steps).usage, storage, upload)
  {
    hide Run, CanRun, Counted, Ledger, Stamped, UsesCaps;
    InitLedger(p);
    RunStaysUnderCaps(p, INIT, steps, storage, upload);
  }

  // ---- What lies in storage is what was metered -----------------------------------------------------

  ghost predicate PinnedAsMetered(p: Params, s: State) {
    && (forall x :: x in s.signing && CanStillSign(p, s, x) && x.hash in s.blobs ==>
          x.pinned == s.blobs[x.hash].size)
    && (forall u :: u in s.urls && CanStillLand(p, s, u) && u.hash in s.blobs ==>
          u.pinned == s.blobs[u.hash].size)
    && (forall h :: h in s.storage && h in s.blobs ==> s.storage[h] == s.blobs[h].size)
  }

  lemma PresignKeepsPinned(p: Params, s: State, part: Part, hash: Hash, size: u64, limits: Limits, stamp: Time)
    requires Counted(s) && Guarded(p, s) && PinnedAsMetered(p, s) && size <= I64_MAX
    ensures PinnedAsMetered(p, Presign(s, part, hash, size, limits, stamp))
  {
    var s' := Presign(s, part, hash, size, limits, stamp);
    hide Presign, Counted, DropRef, AddRef, IsEligible;
    PresignKeepsClock(s, part, hash, size, limits, stamp);
    PresignSigns(s, part, hash, size, limits, stamp);
    if s' != s {
      forall h | h in s'.blobs
        ensures s'.blobs[h].size == if h in s.blobs then s.blobs[h].size else size
        ensures h in s.blobs || h == hash
      {
        PresignCharges(s, part, hash, size, limits, stamp);
        assert h in BlobSizes(s') && BlobSizes(s')[h] == s'.blobs[h].size;
        assert h in BlobSizes(s) ==> BlobSizes(s)[h] == s.blobs[h].size;
      }
    }
  }

  lemma StepKeepsPinned(p: Params, s: State, step: Step)
    requires p.grace >= Reach(p) && Enabled(p, s, step)
    requires Counted(s) && Sound(p, s) && PinnedAsMetered(p, s)
    requires step.PresignStep? ==> step.size <= I64_MAX
    ensures PinnedAsMetered(p, Next(p, s, step))
  {
    hide Presign, Counted, Timed, SnapshotInsert, SnapshotSwap, Push, Lists, IsEligible, PinnedAsMetered, Sign,
      DeleteObject, DeleteRow;
    match step
    case PresignStep(part, hash, size, limits, stamp) =>
      PresignKeepsPinned(p, s, part, hash, size, limits, stamp);
    case SignStep(x, sees) => SignKeepsPinned(p, s, x, sees);
    case Put(_) => PutKeepsPinned(p, s, step.url);
    case SweepObject(outcome) => DeleteObjectKeepsPinned(p, s, outcome);
    case SweepRow => DeleteRowKeepsPinned(p, s);
    case Tick(_) => TimeKeepsPinned(p, s, Next(p, s, step));
    case SweepStart => TimeKeepsPinned(p, s, Next(p, s, step));
    case SweepScan(_) => TimeKeepsPinned(p, s, Next(p, s, step));
    case SweepStop => TimeKeepsPinned(p, s, Next(p, s, step));
    case SnapshotInsertStep(_, _, _, _) => TimeKeepsPinned(p, s, Next(p, s, step));
    case SnapshotRead(_) => TimeKeepsPinned(p, s, Next(p, s, step));
    case SnapshotSwapStep(_, _) => TimeKeepsPinned(p, s, Next(p, s, step));
    case PushStep(_, _) => TimeKeepsPinned(p, s, Next(p, s, step));
  }

  lemma DeleteObjectKeepsPinned(p: Params, s: State, outcome: DeleteOutcome)
    requires PinnedAsMetered(p, s) && Enabled(p, s, SweepObject(outcome))
    ensures PinnedAsMetered(p, DeleteObject(s, outcome))
  {
    TimeKeepsPinned(p, s, DeleteObject(s, outcome));
  }

  lemma DeleteRowKeepsPinned(p: Params, s: State)
    requires PinnedAsMetered(p, s) && Enabled(p, s, SweepRow)
    ensures PinnedAsMetered(p, DeleteRow(s))
  {
    TimeKeepsPinned(p, s, DeleteRow(s));
  }

  /** Time passing, objects and rows going away, and the ledger moving change no length. */
  lemma TimeKeepsPinned(p: Params, s: State, s': State)
    requires PinnedAsMetered(p, s)
    requires s'.now >= s.now && s'.signing == s.signing && s'.urls == s.urls
    requires s'.blobs.Keys <= s.blobs.Keys && s'.storage.Keys <= s.storage.Keys
    requires forall h :: h in s'.blobs ==> s'.blobs[h] == s.blobs[h]
    requires forall h :: h in s'.storage ==> s'.storage[h] == s.storage[h]
    ensures PinnedAsMetered(p, s')
  {
  }

  lemma SignKeepsPinned(p: Params, s: State, x: Signing, sees: bool)
    requires PinnedAsMetered(p, s) && x in s.signing && CanStillSign(p, s, x)
    ensures PinnedAsMetered(p, Sign(p, s, x, sees))
  {
  }

  lemma PutKeepsPinned(p: Params, s: State, url: Url)
    requires PinnedAsMetered(p, s) && url in s.urls && CanStillLand(p, s, url)
    ensures PinnedAsMetered(p, s.(storage := s.storage[url.hash := url.pinned]))
  {
  }

  lemma {:induction false} RunKeepsPinned(p: Params, s: State, steps: seq<Step>)
    requires p.grace >= Reach(p) && CanRun(p, s, steps)
    requires Counted(s) && Stamped(p, s) && Sound(p, s) && PinnedAsMetered(p, s)
    requires forall x :: x in steps && x.PresignStep? ==> x.size <= I64_MAX
    ensures PinnedAsMetered(p, Run(p, s, steps)) && Sound(p, Run(p, s, steps))
    decreases |steps|
  {
    if steps != [] {
      assert steps[0] in steps;
      hide Counted, Stamped, Sound, PinnedAsMetered;
      StepKeepsCounted(p, s, steps[0]);
      StepKeepsSound(p, s, steps[0]);
      StepKeepsPinned(p, s, steps[0]);
      RunKeepsPinned(p, Next(p, s, steps[0]), steps[1..]);
    }
  }

  /** With a long enough grace period, every object in storage has a row and exactly the length
      that was metered for it, as long as no declared length exceeds 63 bits. */
  lemma StoredBytesAreMetered(p: Params, steps: seq<Step>)
    requires p.grace >= Reach(p) && CanRun(p, INIT, steps)
    requires forall x :: x in steps && x.PresignStep? ==> x.size <= I64_MAX
    ensures var s := Run(p, INIT, steps);
            forall h :: h in s.storage ==> h in s.blobs && s.storage[h] == s.blobs[h].size
  {
    RunKeepsPinned(p, INIT, steps);
  }

  /** Beyond 63 bits the metered length is clipped but the signed one is not. */
  lemma OversizedPresignPinsMore(p: Params, size: u64)
    requires size > I64_MAX
    ensures Enabled(p, INIT, PresignStep(0, 1, size, UNLIMITED, 0))
    ensures var s := Next(p, INIT, PresignStep(0, 1, size, UNLIMITED, 0));
            && Signing(1, size, 0, true) in s.signing && 1 in s.blobs && s.blobs[1].size == I64_MAX
            && !PinnedAsMetered(p, s)
  {
    var s := Next(p, INIT, PresignStep(0, 1, size, UNLIMITED, 0));
    assert CanStillSign(p, s, Signing(1, size, 0, true));
  }

  /** Every object in storage has a row and the length that was metered for it. */
  ghost predicate Metered(s: State) {
    forall h :: h in s.storage ==> h in s.blobs && s.storage[h] == s.blobs[h].size
  }

  ghost predicate SizesAtMost(steps: seq<Step>, most: nat) {
    forall x :: x in steps && x.PresignStep? ==> x.size <= most
  }

  ghost predicate AlwaysMetered(p: Params, most: nat) {
    forall steps :: CanRun(p, INIT, steps) && SizesAtMost(steps, most) ==> Metered(Run(p, INIT, steps))
  }

  /** One presign of a blob, its upload URL and the upload. */
  function UploadRun(p: Params, size: u64): seq<Step> {
    [PresignStep(0, 1, size, UNLIMITED, 0), SignStep(Signing(1, size, 0, true), false), Put(Url(1, size, p.ttl))]
  }

  /** An object whose declared length exceeds 63 bits is stored with that length, next to a row that
      was metered for less. */
  lemma OversizedIsStored(p: Params, size: u64)
    requires size > I64_MAX
    ensures CanRun(p, INIT, UploadRun(p, size))
    ensures var s := Run(p, INIT, UploadRun(p, size));
            1 in s.storage && s.storage[1] == size && 1 in s.blobs && s.blobs[1].size == I64_MAX
  {
    var run := UploadRun(p, size);
    OversizedPresignPinsMore(p, size);
    var s1 := Next(p, INIT, run[0]);
    PresignKeepsClock(INIT, 0, 1, size, UNLIMITED, 0);
    hide Presign, PinnedAsMetered;
    var s2 := Next(p, s1, run[1]);
    var s3 := Next(p, s2, run[2]);
    var r2, r1 := run[2..], run[1..];
    assert r2[1..] == [] && r1[1..] == r2;
    Unfold(p, s2, r2);
    Unfold(p, s1, r1);
    Unfold(p, INIT, run);
  }

  /** With a long enough grace period, runs whose declared lengths stay within a bound always store
      exactly what was metered if and only if the bound is within 63 bits. */
  lemma AlwaysMeteredIff(p: Params, most: nat)
    requires p.grace >= Reach(p)
    ensures AlwaysMetered(p, most) <==> most <= I64_MAX
  {
    hide Run, CanRun;
    if most <= I64_MAX {
      forall steps | CanRun(p, INIT, steps) && SizesAtMost(steps, most) ensures Metered(Run(p, INIT, steps)) {
        StoredBytesAreMetered(p, steps);
      }
    } else {
      var steps := UploadRun(p, I64_MAX + 1);
      OversizedIsStored(p, I64_MAX + 1);
      assert SizesAtMost(steps, most);
      assert !Metered(Run(p, INIT, steps));
    }
  }
}
