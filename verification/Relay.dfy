/** The blob store of the relay as a timed state machine: presigns, uploads, the garbage
    collection sweep and the usage ledger of one tenant interleave freely. A request that runs in
    one transaction is one step; a sweep is a scan, and then an object delete and a row delete
    for each blob; a snapshot re-point is a read and a compare-and-swap. */
module Relay {
  import opened Wrappers
  import opened Bytes
  import opened Choke
  import opened Sums

  type Hash = nat
  type Part = nat
  type Generation = nat

  /** `grace`: the sweep's grace period. `ttl`: the lifetime of a signed URL. `delay`: at most
      this long from a presign's commit to its signature. `skew`: at most this long from the
      start of a transaction (which is the time it stamps) to its commit. `transfer`: an upload
      admitted before its URL expires lands at most this much later. */
  datatype Params = Params(grace: nat, ttl: nat, delay: nat, skew: nat, transfer: nat)

  /** One row of `audio_blobs`. */
  datatype Blob = Blob(size: nat, refcount: int, released: Option<Time>)

  /** A committed presign that has not answered yet. `created`: it made the blob row, so it signs
      without asking whether the object exists. */
  datatype Signing = Signing(hash: Hash, pinned: nat, committed: Time, created: bool)

  /** An upload URL handed out. */
  datatype Url = Url(hash: Hash, pinned: nat, expiry: Time)

  datatype Eligible = Eligible(hash: Hash, size: nat)

  /** `todo`: the blobs of the scan still to process; `objectGone`: the delete of the first one's
      object was confirmed. */
  datatype Sweep =
    | Idle
    | Started(cutoff: Time)
    | Deleting(cutoff: Time, todo: seq<Eligible>, objectGone: bool)

  datatype Snapshot = Snapshot(hash: Hash, size: nat)

  /** A snapshot re-point between its read and its write. */
  datatype Repoint = Repoint(generation: Generation, readHash: Hash, readSize: nat, newHash: Hash, newSize: u64)

  /** `objects` maps parts to blobs; `storage` holds the stored objects with their lengths. The
      last three fields are history: when each blob last had a mapping, what each snapshot
      generation was charged in all, and what pushes were charged. */
  datatype State = State(
    now: Time, blobs: map<Hash, Blob>, objects: map<Part, Hash>,
    storage: map<Hash, nat>, signing: set<Signing>, urls: set<Url>, sweep: Sweep,
    usage: Option<Usage>, snapshots: map<Generation, Snapshot>, repoints: set<Repoint>,
    leftAt: map<Hash, Time>, charged: map<Generation, nat>, pushed: nat)

  const INIT := State(0, map[], map[], map[], {}, {}, Idle, None, map[], {}, map[], map[], 0)

  // ---- Presign ----------------------------------------------------------------------------------

  function AddRef(b: Blob): Blob {
    b.(refcount := b.refcount + 1, released := None)
  }

  function Max0(n: int): nat { if n < 0 then 0 else n }

  /** Drop one reference; stamp the release on the transition to none. */
  function DropRef(b: Blob, stamp: Time): Blob {
    b.(refcount := Max0(b.refcount - 1),
       released := if b.refcount - 1 <= 0 && b.released.None? then Some(stamp) else b.released)
  }

  function OldMapping(s: State, part: Part): Option<Hash> {
    if part in s.objects then Some(s.objects[part]) else None
  }

  /** The blob rows once the part's old reference is dropped. */
  function Dropped(s: State, part: Part, hash: Hash, stamp: Time): map<Hash, Blob> {
    match OldMapping(s, part)
    case None => s.blobs
    case Some(prev) =>
      if prev != hash && prev in s.blobs then s.blobs[prev := DropRef(s.blobs[prev], stamp)] else s.blobs
  }

  /** A presign whose transaction started at `stamp` and commits now. New bytes pass the choke
      point once, when the blob row is created; a refusal rolls everything back. */
  function Presign(s: State, part: Part, hash: Hash, size: u64, limits: Limits, stamp: Time): (s': State)
    ensures s' == s.(blobs := s'.blobs, objects := s'.objects, signing := s'.signing, usage := s'.usage,
                     leftAt := s'.leftAt)
  {
    var prev := OldMapping(s, part);
    var blobs := Dropped(s, part, hash, stamp);
    var s1 := s.(objects := s.objects[part := hash],
                 leftAt := if prev.Some? && prev.value != hash then s.leftAt[prev.value := s.now] else s.leftAt);
    if hash in s.blobs then
      var stored := s.blobs[hash].size;
      s1.(blobs := if prev == Some(hash) then blobs else blobs[hash := AddRef(blobs[hash])],
          signing := s.signing + {Signing(hash, stored, s.now, false)})
    else
      var row := Opened(s.usage, limits, s.now);
      if Admits(row, limits, size) then
        s1.(blobs := blobs[hash := Blob(Clip(size), 1, None)],
            usage := Some(Charged(row, size)),
            signing := s.signing + {Signing(hash, size, s.now, true)})
      else s
  }

  /** Answer a committed presign: `sees` is what the existence check reported. */
  function Sign(p: Params, s: State, x: Signing, sees: bool): (s': State)
    ensures s' == s.(signing := s'.signing, urls := s'.urls)
  {
    s.(signing := s.signing - {x},
       urls := if !x.created && sees then s.urls else s.urls + {Url(x.hash, x.pinned, s.now + p.ttl)})
  }

  // ---- Sweep ------------------------------------------------------------------------------------

  predicate IsEligible(b: Blob, cutoff: Time) {
    b.refcount <= 0 && b.released.Some? && b.released.value < cutoff
  }

  /** `todo` lists the eligible blobs, each once, with their sizes. */
  predicate Lists(todo: seq<Eligible>, blobs: map<Hash, Blob>, cutoff: Time) {
    && (forall e :: e in todo ==>
          e.hash in blobs && IsEligible(blobs[e.hash], cutoff) && e.size == blobs[e.hash].size)
    && (forall h :: h in blobs && IsEligible(blobs[h], cutoff) ==> Eligible(h, blobs[h].size) in todo)
    && Distinct(todo)
  }

  predicate Distinct(todo: seq<Eligible>) {
    forall i, j :: 0 <= i < j < |todo| ==> todo[i].hash != todo[j].hash
  }

  /** The outcome of the object delete. Unconfirmed, the object may be gone or not. */
  datatype DeleteOutcome = Confirmed | Unconfirmed(gone: bool)

  function DeleteObject(s: State, outcome: DeleteOutcome): (s': State)
    requires s.sweep.Deleting? && s.sweep.todo != []
    ensures s' == s.(storage := s'.storage, sweep := s'.sweep)
  {
    var h := s.sweep.todo[0].hash;
    match outcome
    case Confirmed => s.(storage := s.storage - {h}, sweep := s.sweep.(objectGone := true))
    case Unconfirmed(gone) =>
      s.(storage := if gone then s.storage - {h} else s.storage,
         sweep := s.sweep.(todo := s.sweep.todo[1..]))
  }

  /** Delete the row, if it is still eligible, and refund its bytes in the same transaction. */
  function DeleteRow(s: State): (s': State)
    requires s.sweep.Deleting? && s.sweep.todo != []
    ensures s' == s.(blobs := s'.blobs, usage := s'.usage, sweep := s'.sweep)
  {
    var e := s.sweep.todo[0];
    var done := s.(sweep := s.sweep.(todo := s.sweep.todo[1..], objectGone := false));
    if e.hash in s.blobs && IsEligible(s.blobs[e.hash], s.sweep.cutoff) then
      done.(blobs := s.blobs - {e.hash},
            usage := match s.usage
                     case None => None
                     case Some(u) => Some(u.(storage := Max0(u.storage - e.size))))
    else done
  }

  // ---- Snapshots --------------------------------------------------------------------------------

  /** Nothing but the clock-free ledger and the snapshot rows differs. */
  predicate OnlyLedgerDiffers(s: State, s': State) {
    s' == s.(usage := s'.usage, snapshots := s'.snapshots, repoints := s'.repoints,
             charged := s'.charged, pushed := s'.pushed)
  }

  function SnapshotInsert(s: State, g: Generation, hash: Hash, size: u64, limits: Limits): (s': State)
    ensures OnlyLedgerDiffers(s, s')
  {
    var row := Opened(s.usage, limits, s.now);
    if g !in s.snapshots && Admits(row, limits, size) then
      s.(snapshots := s.snapshots[g := Snapshot(hash, Clip(size))],
         charged := s.charged[g := Clip(size)],
         usage := Some(Charged(row, size)))
    else s
  }

  function Growth(r: Repoint): nat {
    if r.newSize > r.readSize then r.newSize - r.readSize else 0
  }

  /** Meter the growth over the size that was read, then swap if the row still has the hash that
      was read; otherwise the whole transaction rolls back. */
  function SnapshotSwap(s: State, r: Repoint, limits: Limits): (s': State)
    ensures OnlyLedgerDiffers(s, s')
  {
    var s1 := s.(repoints := s.repoints - {r});
    var row := Opened(s.usage, limits, s.now);
    if && Admits(row, limits, Growth(r))
       && r.generation in s.snapshots && s.snapshots[r.generation].hash == r.readHash
    then
      s1.(snapshots := s.snapshots[r.generation := Snapshot(r.newHash, Clip(r.newSize))],
          charged := s.charged[r.generation :=
            (if r.generation in s.charged then s.charged[r.generation] else 0) + Clip(Growth(r))],
          usage := Some(Charged(row, Growth(r))))
    else s1
  }

  function Push(s: State, bytes: u64, limits: Limits): (s': State)
    ensures OnlyLedgerDiffers(s, s') && s'.snapshots == s.snapshots && s'.charged == s.charged
  {
    var row := Opened(s.usage, limits, s.now);
    if Admits(row, limits, bytes)
    then s.(usage := Some(Charged(row, bytes)), pushed := s.pushed + Clip(bytes))
    else s
  }

  // ---- Runs -------------------------------------------------------------------------------------

  datatype Step =
    | Tick(dt: nat)
    | PresignStep(part: Part, hash: Hash, size: u64, limits: Limits, stamp: Time)
    | SignStep(x: Signing, sees: bool)
    | Put(url: Url)
    | SweepStart
    | SweepScan(todo: seq<Eligible>)
    | SweepObject(outcome: DeleteOutcome)
    | SweepRow
    | SweepStop
    | SnapshotInsertStep(g: Generation, hash: Hash, size: u64, limits: Limits)
    | SnapshotRead(r: Repoint)
    | SnapshotSwapStep(r: Repoint, limits: Limits)
    | PushStep(bytes: u64, limits: Limits)

  predicate Enabled(p: Params, s: State, step: Step) {
    match step
    case PresignStep(_, _, _, _, stamp) => s.now - p.skew <= stamp <= s.now
    case SignStep(x, sees) =>
      x in s.signing && s.now <= x.committed + p.delay && (sees ==> x.hash in s.storage)
    case Put(url) => url in s.urls && s.now <= url.expiry + p.transfer
    case SweepStart => s.sweep.Idle?
    case SweepScan(todo) => s.sweep.Started? && Lists(todo, s.blobs, s.sweep.cutoff)
    case SweepObject(_) => s.sweep.Deleting? && s.sweep.todo != [] && !s.sweep.objectGone
    case SweepRow => s.sweep.Deleting? && s.sweep.todo != [] && s.sweep.objectGone
    case SnapshotRead(r) =>
      && r.generation in s.snapshots
      && s.snapshots[r.generation] == Snapshot(r.readHash, r.readSize)
      && r.newHash != r.readHash
    case SnapshotSwapStep(r, _) => r in s.repoints
    case _ => true
  }

  function Next(p: Params, s: State, step: Step): State
    requires Enabled(p, s, step)
  {
    match step
    case Tick(dt) => s.(now := s.now + dt)
    case PresignStep(part, hash, size, limits, stamp) => Presign(s, part, hash, size, limits, stamp)
    case SignStep(x, sees) => Sign(p, s, x, sees)
    case Put(url) => s.(storage := s.storage[url.hash := url.pinned])
    case SweepStart => s.(sweep := Started(s.now - p.grace))
    case SweepScan(todo) => s.(sweep := Deleting(s.sweep.cutoff, todo, false))
    case SweepObject(outcome) => DeleteObject(s, outcome)
    case SweepRow => DeleteRow(s)
    case SweepStop => s.(sweep := Idle)
    case SnapshotInsertStep(g, hash, size, limits) => SnapshotInsert(s, g, hash, size, limits)
    case SnapshotRead(r) => s.(repoints := s.repoints + {r})
    case SnapshotSwapStep(r, limits) => SnapshotSwap(s, r, limits)
    case PushStep(bytes, limits) => Push(s, bytes, limits)
  }

  predicate CanRun(p: Params, s: State, steps: seq<Step>)
    decreases |steps|
  {
    steps == [] || (Enabled(p, s, steps[0]) && CanRun(p, Next(p, s, steps[0]), steps[1..]))
  }

  function Run(p: Params, s: State, steps: seq<Step>): State
    requires CanRun(p, s, steps)
    decreases |steps|
  {
    if steps == [] then s else Run(p, Next(p, s, steps[0]), steps[1..])
  }

  // ---- References and release stamps ------------------------------------------------------------

  /** The mapping-count invariant: a blob's refcount is the number of parts mapped to it, every
      mapping has a row, and the release stamp is set exactly while there is no mapping. */
  ghost predicate Counted(s: State) {
    && (forall q :: q in s.objects ==> s.objects[q] in s.blobs)
    && (forall h :: h in s.blobs ==>
          && s.blobs[h].refcount == Count(s.objects, h)
          && (s.blobs[h].released.Some? <==> s.blobs[h].refcount == 0))
  }

  /** The stamp is the time the last mapping left, up to the length of a transaction. */
  ghost predicate Stamped(p: Params, s: State) {
    forall h :: h in s.blobs && s.blobs[h].released.Some? ==>
      && h in s.leftAt && s.leftAt[h] <= s.now
      && s.leftAt[h] - p.skew <= s.blobs[h].released.value <= s.leftAt[h]
  }

  lemma DroppedRow(s: State, part: Part, hash: Hash, stamp: Time, h: Hash)
    ensures var blobs := Dropped(s, part, hash, stamp);
            && (h in blobs <==> h in s.blobs)
            && (h in s.blobs ==>
                  blobs[h] == if OldMapping(s, part) == Some(h) && h != hash
                              then DropRef(s.blobs[h], stamp) else s.blobs[h])
  {
  }

  /** What a committed presign does to the row of one blob. */
  lemma PresignRow(s: State, part: Part, hash: Hash, size: u64, limits: Limits, stamp: Time, h: Hash)
    requires Counted(s)
    ensures var s' := Presign(s, part, hash, size, limits, stamp);
            var from, to := OldMapping(s, part) == Some(h), h == hash;
            s' != s ==>
              && (h in s'.blobs <==> h in s.blobs || to)
              && s'.objects == s.objects[part := hash]
              && (h in s.blobs ==>
                    s'.blobs[h] == if from && !to then DropRef(s.blobs[h], stamp)
                                   else if to && !from then AddRef(s.blobs[h])
                                   else s.blobs[h])
              && (h !in s.blobs && to ==> s'.blobs[h] == Blob(Clip(size), 1, None) && !from)
              && s'.leftAt == if OldMapping(s, part).Some? && OldMapping(s, part) != Some(hash)
                              then s.leftAt[s.objects[part] := s.now] else s.leftAt
  {
    hide Admits, Charged, Opened, DropRef, AddRef, Dropped;
    DroppedRow(s, part, hash, stamp, h);
    DroppedRow(s, part, hash, stamp, hash);
  }

  lemma PresignKeepsCounted(s: State, part: Part, hash: Hash, size: u64, limits: Limits, stamp: Time)
    requires Counted(s)
    ensures Counted(Presign(s, part, hash, size, limits, stamp))
  {
    hide Presign, Count, Sums.KeysAt;
    var s' := Presign(s, part, hash, size, limits, stamp);
    forall q | q in s'.objects
      ensures s'.objects[q] in s'.blobs
    {
      PresignRow(s, part, hash, size, limits, stamp, s'.objects[q]);
    }
    forall h | h in s'.blobs
      ensures s'.blobs[h].refcount == Count(s'.objects, h)
      ensures s'.blobs[h].released.Some? <==> s'.blobs[h].refcount == 0
    {
      PresignRow(s, part, hash, size, limits, stamp, h);
      CountPut(s.objects, part, hash, h);
      NoneMapped(s, h);
      MappedAtLeastOne(s.objects, part, h);
    }
  }

  lemma PresignKeepsStamped(p: Params, s: State, part: Part, hash: Hash, size: u64, limits: Limits, stamp: Time)
    requires Counted(s) && Stamped(p, s) && s.now - p.skew <= stamp <= s.now
    ensures Stamped(p, Presign(s, part, hash, size, limits, stamp))
  {
    hide Presign, Count;
    var s' := Presign(s, part, hash, size, limits, stamp);
    PresignKeepsClock(s, part, hash, size, limits, stamp);
    forall h | h in s'.blobs && s'.blobs[h].released.Some?
      ensures h in s'.leftAt && s'.leftAt[h] <= s'.now
      ensures s'.leftAt[h] - p.skew <= s'.blobs[h].released.value <= s'.leftAt[h]
    {
      PresignRow(s, part, hash, size, limits, stamp, h);
      MappedAtLeastOne(s.objects, part, h);
    }
  }

  lemma PresignKeepsClock(s: State, part: Part, hash: Hash, size: u64, limits: Limits, stamp: Time)
    ensures var s' := Presign(s, part, hash, size, limits, stamp);
            && s'.now == s.now && s'.storage == s.storage && s'.urls == s.urls && s'.sweep == s.sweep
            && s'.snapshots == s.snapshots && s'.repoints == s.repoints && s'.charged == s.charged
            && s'.pushed == s.pushed
  {
    hide Presign;
  }

  lemma NoneMapped(s: State, h: Hash)
    requires Counted(s)
    ensures h !in s.blobs ==> Count(s.objects, h) == 0
  {
    if h !in s.blobs {
      assert KeysAt(s.objects, h) == {};
    }
  }

  lemma MappedAtLeastOne(objects: map<Part, Hash>, part: Part, h: Hash)
    ensures part in objects && objects[part] == h ==> Count(objects, h) >= 1
  {
    if part in objects && objects[part] == h {
      assert part in KeysAt(objects, h);
      assert KeysAt(objects, h) != {};
    }
  }

  lemma StepKeepsCounted(p: Params, s: State, step: Step)
    requires Enabled(p, s, step) && Counted(s) && Stamped(p, s)
    ensures Counted(Next(p, s, step)) && Stamped(p, Next(p, s, step))
  {
    hide Presign, Count, Counted;
    match step
    case PresignStep(part, hash, size, limits, stamp) =>
      PresignKeepsCounted(s, part, hash, size, limits, stamp);
      PresignKeepsStamped(p, s, part, hash, size, limits, stamp);
    case SweepRow => RowDeleteKeepsCounted(s);
    case _ =>
      OtherStepsKeepRows(p, s, step);
      SameRowsSameCount(s, Next(p, s, step));
  }

  lemma OtherStepsKeepRows(p: Params, s: State, step: Step)
    requires Enabled(p, s, step) && !step.PresignStep? && !step.SweepRow?
    ensures var s' := Next(p, s, step);
            && s'.blobs == s.blobs && s'.objects == s.objects && s'.leftAt == s.leftAt
            && s'.now >= s.now
  {
    hide Lists, SnapshotInsert, SnapshotSwap, Push, Presign, DeleteRow, DeleteObject, Sign;
  }

  lemma SameRowsSameCount(s: State, s': State)
    requires Counted(s) && s'.blobs == s.blobs && s'.objects == s.objects
    ensures Counted(s')
  {
  }

  lemma RowDeleteKeepsCounted(s: State)
    requires Counted(s) && s.sweep.Deleting? && s.sweep.todo != []
    ensures Counted(DeleteRow(s))
  {
    hide Count;
    var h := s.sweep.todo[0].hash;
    if h in s.blobs && IsEligible(s.blobs[h], s.sweep.cutoff) {
      NothingPointsAt(s, h);
    }
  }

  lemma NothingPointsAt(s: State, h: Hash)
    requires Counted(s) && h in s.blobs && s.blobs[h].refcount <= 0
    ensures forall q :: q in s.objects ==> s.objects[q] != h
  {
    forall q | q in s.objects
      ensures s.objects[q] != h
    {
      MappedAtLeastOne(s.objects, q, h);
    }
  }

  /** The decrement's floor at zero never fires: a mapped blob has a reference to give up. */
  lemma DecrementNeverFloors(s: State, part: Part)
    requires Counted(s) && part in s.objects
    ensures s.objects[part] in s.blobs && s.blobs[s.objects[part]].refcount - 1 >= 0
  {
    MappedAtLeastOne(s.objects, part, s.objects[part]);
  }

  // ---- Time: how long a presign can still put an object into storage -----------------------------

  /** From the stamp of a release, the longest an upload signed for the blob can still land. */
  function Reach(p: Params): nat { p.skew + p.delay + p.ttl + p.transfer }

  predicate CanStillSign(p: Params, s: State, x: Signing) { s.now <= x.committed + p.delay }

  predicate CanStillLand(p: Params, s: State, u: Url) { s.now <= u.expiry + p.transfer }

  /** Everything that could fill a released blob was committed before its release. */
  ghost predicate Timed(p: Params, s: State) {
    && (forall x :: x in s.signing ==> x.committed <= s.now)
    && (forall u :: u in s.urls ==> u.expiry <= s.now + p.ttl)
    && (forall x :: x in s.signing && x.hash in s.blobs && s.blobs[x.hash].released.Some? ==>
          x.committed <= s.blobs[x.hash].released.value + p.skew)
    && (forall u :: u in s.urls && u.hash in s.blobs && s.blobs[u.hash].released.Some? ==>
          u.expiry <= s.blobs[u.hash].released.value + p.skew + p.delay + p.ttl)
    && (s.sweep.Started? || s.sweep.Deleting? ==> s.sweep.cutoff <= s.now - p.grace)
  }

  lemma PresignSigns(s: State, part: Part, hash: Hash, size: u64, limits: Limits, stamp: Time)
    ensures var s' := Presign(s, part, hash, size, limits, stamp);
            s' != s ==>
              && hash in s'.blobs
              && s'.signing == s.signing + {
                   if hash in s.blobs then Signing(hash, s.blobs[hash].size, s.now, false)
                   else Signing(hash, size, s.now, true)}
  {
    hide Admits, Charged, Opened, DropRef, AddRef;
  }

  lemma PresignKeepsTimed(p: Params, s: State, part: Part, hash: Hash, size: u64, limits: Limits, stamp: Time)
    requires Counted(s) && Timed(p, s) && s.now - p.skew <= stamp <= s.now
    ensures Timed(p, Presign(s, part, hash, size, limits, stamp))
  {
    hide Presign, Count;
    var s' := Presign(s, part, hash, size, limits, stamp);
    PresignKeepsClock(s, part, hash, size, limits, stamp);
    PresignSigns(s, part, hash, size, limits, stamp);
    forall x | x in s'.signing && x.hash in s'.blobs && s'.blobs[x.hash].released.Some?
      ensures x.committed <= s'.blobs[x.hash].released.value + p.skew
    {
      PresignRow(s, part, hash, size, limits, stamp, x.hash);
      MappedAtLeastOne(s.objects, part, x.hash);
    }
    forall u | u in s'.urls && u.hash in s'.blobs && s'.blobs[u.hash].released.Some?
      ensures u.expiry <= s'.blobs[u.hash].released.value + p.skew + p.delay + p.ttl
    {
      PresignRow(s, part, hash, size, limits, stamp, u.hash);
    }
  }

  // ---- No orphaned object ------------------------------------------------------------------------

  /** Every stored object has a row. */
  ghost predicate NoOrphan(s: State) {
    s.storage.Keys <= s.blobs.Keys
  }

  /** What keeps it so: only blobs with a row can still be signed for or uploaded, and between the
      two deletes the first blob's object stays gone unless the blob is needed again. */
  ghost predicate Guarded(p: Params, s: State) {
    && NoOrphan(s)
    && (forall x :: x in s.signing && CanStillSign(p, s, x) ==> x.hash in s.blobs)
    && (forall u :: u in s.urls && CanStillLand(p, s, u) ==> u.hash in s.blobs)
    && (s.sweep.Deleting? && s.sweep.objectGone ==>
          && s.sweep.todo != []
          && var h := s.sweep.todo[0].hash;
             h in s.blobs && IsEligible(s.blobs[h], s.sweep.cutoff) ==> h !in s.storage)
  }

  /** A blob past its grace period can no longer be signed for or uploaded. */
  lemma EligibleIsOutOfReach(p: Params, s: State, h: Hash)
    requires p.grace >= Reach(p) && Timed(p, s)
    requires s.sweep.Deleting? && h in s.blobs && IsEligible(s.blobs[h], s.sweep.cutoff)
    ensures forall x :: x in s.signing && x.hash == h ==> !CanStillSign(p, s, x)
    ensures forall u :: u in s.urls && u.hash == h ==> !CanStillLand(p, s, u)
  {
  }

  lemma PresignKeepsGuarded(p: Params, s: State, part: Part, hash: Hash, size: u64, limits: Limits, stamp: Time)
    requires p.grace >= Reach(p) && Counted(s) && Timed(p, s) && Guarded(p, s)
    requires s.now - p.skew <= stamp <= s.now
    ensures Guarded(p, Presign(s, part, hash, size, limits, stamp))
  {
    hide Presign, Count, Counted, DropRef, AddRef;
    var s' := Presign(s, part, hash, size, limits, stamp);
    PresignKeepsClock(s, part, hash, size, limits, stamp);
    PresignSigns(s, part, hash, size, limits, stamp);
    forall h | h in s.blobs
      ensures h in s'.blobs
    {
      PresignRow(s, part, hash, size, limits, stamp, h);
    }
    if s.sweep.Deleting? && s.sweep.objectGone {
      PresignNeverMakesEligible(p, s, part, hash, size, limits, stamp, s.sweep.todo[0].hash);
    }
  }

  /** A release is stamped too late for a cutoff in force: a presign never makes a blob eligible. */
  lemma PresignNeverMakesEligible(
    p: Params, s: State, part: Part, hash: Hash, size: u64, limits: Limits, stamp: Time, h: Hash)
    requires p.grace >= p.skew && Counted(s) && Timed(p, s) && s.sweep.Deleting?
    requires s.now - p.skew <= stamp <= s.now
    ensures var s' := Presign(s, part, hash, size, limits, stamp);
            h in s'.blobs && IsEligible(s'.blobs[h], s.sweep.cutoff) ==>
              h in s.blobs && IsEligible(s.blobs[h], s.sweep.cutoff)
  {
    hide Presign, Count;
    PresignRow(s, part, hash, size, limits, stamp, h);
    MappedAtLeastOne(s.objects, part, h);
  }

  /** The timing facts, and with a long enough grace period the guard. */
  ghost predicate Sound(p: Params, s: State) {
    Timed(p, s) && (p.grace >= Reach(p) ==> Guarded(p, s))
  }

  lemma PresignKeepsSound(p: Params, s: State, part: Part, hash: Hash, size: u64, limits: Limits, stamp: Time)
    requires Counted(s) && Sound(p, s) && s.now - p.skew <= stamp <= s.now
    ensures Sound(p, Presign(s, part, hash, size, limits, stamp))
  {
    hide Presign, Timed, Guarded, Counted;
    PresignKeepsTimed(p, s, part, hash, size, limits, stamp);
    if p.grace >= Reach(p) {
      PresignKeepsGuarded(p, s, part, hash, size, limits, stamp);
    }
  }

  lemma TickKeepsSound(p: Params, s: State, dt: nat)
    requires Sound(p, s)
    ensures Sound(p, s.(now := s.now + dt))
  {
  }

  lemma SignKeepsSound(p: Params, s: State, x: Signing, sees: bool)
    requires Sound(p, s) && x in s.signing && CanStillSign(p, s, x)
    ensures Sound(p, Sign(p, s, x, sees))
  {
  }

  lemma PutKeepsSound(p: Params, s: State, url: Url)
    requires Sound(p, s) && url in s.urls && CanStillLand(p, s, url)
    ensures Sound(p, s.(storage := s.storage[url.hash := url.pinned]))
  {
    if p.grace >= Reach(p) && s.sweep.Deleting? && url.hash in s.blobs
       && IsEligible(s.blobs[url.hash], s.sweep.cutoff) {
      EligibleIsOutOfReach(p, s, url.hash);
    }
  }

  lemma DeleteObjectKeepsSound(p: Params, s: State, outcome: DeleteOutcome)
    requires Sound(p, s) && Enabled(p, s, SweepObject(outcome))
    ensures Sound(p, DeleteObject(s, outcome))
  {
  }

  lemma DeleteRowKeepsTimed(p: Params, s: State)
    requires Timed(p, s) && s.sweep.Deleting? && s.sweep.todo != []
    ensures Timed(p, DeleteRow(s))
  {
  }

  lemma DeleteRowKeepsGuarded(p: Params, s: State)
    requires p.grace >= Reach(p) && Timed(p, s) && Guarded(p, s) && Enabled(p, s, SweepRow)
    ensures Guarded(p, DeleteRow(s))
  {
    hide Timed, Lists;
    var h := s.sweep.todo[0].hash;
    if h in s.blobs && IsEligible(s.blobs[h], s.sweep.cutoff) {
      EligibleIsOutOfReach(p, s, h);
    }
  }

  lemma DeleteRowKeepsSound(p: Params, s: State)
    requires Sound(p, s) && Enabled(p, s, SweepRow)
    ensures Sound(p, DeleteRow(s))
  {
    hide Timed, Guarded, DeleteRow, Lists;
    DeleteRowKeepsTimed(p, s);
    if p.grace >= Reach(p) {
      DeleteRowKeepsGuarded(p, s);
    }
  }

  /** The start, the scan and the end of a sweep touch no blob. */
  lemma SweepMoveKeepsSound(p: Params, s: State, sweep: Sweep)
    requires Sound(p, s)
    requires sweep.Deleting? ==> !sweep.objectGone
    requires sweep.Idle? || sweep.cutoff == s.now - p.grace || (!s.sweep.Idle? && sweep.cutoff == s.sweep.cutoff)
    ensures Sound(p, s.(sweep := sweep))
  {
  }

  lemma LedgerKeepsSound(p: Params, s: State, s': State)
    requires Sound(p, s) && OnlyLedgerDiffers(s, s')
    ensures Sound(p, s')
  {
  }

  lemma StepKeepsSound(p: Params, s: State, step: Step)
    requires Enabled(p, s, step) && Counted(s) && Sound(p, s)
    ensures Sound(p, Next(p, s, step))
  {
    hide Counted, Sound, Presign, DeleteObject, DeleteRow, Sign, SnapshotInsert, SnapshotSwap, Push, Lists;
    match step
    case Tick(dt) => TickKeepsSound(p, s, dt);
    case PresignStep(part, hash, size, limits, stamp) =>
      PresignKeepsSound(p, s, part, hash, size, limits, stamp);
    case SignStep(x, sees) => SignKeepsSound(p, s, x, sees);
    case Put(url) => PutKeepsSound(p, s, url);
    case SweepObject(outcome) => DeleteObjectKeepsSound(p, s, outcome);
    case SweepRow => DeleteRowKeepsSound(p, s);
    case SweepStart => SweepMoveKeepsSound(p, s, Started(s.now - p.grace));
    case SweepScan(todo) => SweepMoveKeepsSound(p, s, Deleting(s.sweep.cutoff, todo, false));
    case SweepStop => SweepMoveKeepsSound(p, s, Idle);
    case SnapshotInsertStep(_, _, _, _) => LedgerKeepsSound(p, s, Next(p, s, step));
    case SnapshotRead(_) => LedgerKeepsSound(p, s, Next(p, s, step));
    case SnapshotSwapStep(_, _) => LedgerKeepsSound(p, s, Next(p, s, step));
    case PushStep(_, _) => LedgerKeepsSound(p, s, Next(p, s, step));
  }

  lemma {:induction false} RunKeepsInv(p: Params, s: State, steps: seq<Step>)
    requires CanRun(p, s, steps) && Counted(s) && Stamped(p, s) && Sound(p, s)
    ensures var s' := Run(p, s, steps); Counted(s') && Stamped(p, s') && Sound(p, s')
    decreases |steps|
  {
    hide Counted, Stamped, Sound;
    if steps != [] {
      StepKeepsCounted(p, s, steps[0]);
      StepKeepsSound(p, s, steps[0]);
      RunKeepsInv(p, Next(p, s, steps[0]), steps[1..]);
    }
  }

  /** No run ever leaves an object without a row. */
  ghost predicate NeverOrphans(p: Params) {
    forall steps :: CanRun(p, INIT, steps) ==> NoOrphan(Run(p, INIT, steps))
  }

  const UNLIMITED := Limits(None, None, None, false)

  /** A run that orphans an object when the grace period is too short: part 0 moves from blob 1 to
      blob 2 as soon as it can, its first presign answers as late as it can, and the upload lands
      between the two deletes of the sweep. */
  function OrphanRun(p: Params): seq<Step> {
    var late := Url(1, 0, p.skew + p.delay + p.ttl);
    var wait := if p.grace + 1 > p.skew + p.delay then p.grace + 1 - p.skew - p.delay else 0;
    [Tick(p.skew),
     PresignStep(0, 1, 0, UNLIMITED, p.skew), PresignStep(0, 2, 0, UNLIMITED, 0),
     Tick(p.delay), SignStep(Signing(1, 0, p.skew, true), false),
     Tick(wait), SweepStart, SweepScan([Eligible(1, 0)]), SweepObject(Confirmed),
     Put(late), SweepRow]
  }

  lemma Unfold(p: Params, s: State, steps: seq<Step>)
    requires steps != [] && Enabled(p, s, steps[0]) && CanRun(p, Next(p, s, steps[0]), steps[1..])
    ensures CanRun(p, s, steps) && Run(p, s, steps) == Run(p, Next(p, s, steps[0]), steps[1..])
  {
  }

  /** Part 0 is presigned for blob 1, then for blob 2. */
  lemma TwoPresigns(p: Params, s: State)
    requires s == INIT.(now := p.skew)
    ensures var s1 := Presign(s, 0, 1, 0, UNLIMITED, p.skew);
            var s2 := Presign(s1, 0, 2, 0, UNLIMITED, 0);
            && s1.now == p.skew && s2.now == p.skew && s2.storage == map[] && s2.sweep == Idle
            && s2.blobs == map[1 := Blob(0, 0, Some(0)), 2 := Blob(0, 1, None)]
            && Signing(1, 0, p.skew, true) in s2.signing && s2.urls == {}
  {
    var s1 := Presign(s, 0, 1, 0, UNLIMITED, p.skew);
    assert s1.blobs == map[1 := Blob(0, 1, None)] && s1.objects == map[0 := 1];
  }

  /** The first half of the run: blob 1 is released at time 0 and its late URL is out. */
  lemma OrphanRunReleases(p: Params) returns (s: State)
    ensures CanRun(p, INIT, OrphanRun(p)[..5]) && Run(p, INIT, OrphanRun(p)[..5]) == s
    ensures s.now == p.skew + p.delay && s.storage == map[] && s.sweep == Idle
    ensures s.blobs == map[1 := Blob(0, 0, Some(0)), 2 := Blob(0, 1, None)]
    ensures s.urls == {Url(1, 0, p.skew + p.delay + p.ttl)}
  {
    var run := OrphanRun(p)[..5];
    var s1 := Next(p, INIT, run[0]);
    var s2 := Next(p, s1, run[1]);
    var s3 := Next(p, s2, run[2]);
    TwoPresigns(p, s1);
    hide Presign;
    var s4 := Next(p, s3, run[3]);
    s := Next(p, s4, run[4]);
    var r4, r3, r2, r1 := run[4..], run[3..], run[2..], run[1..];
    assert r4[1..] == [];
    Unfold(p, s4, r4);
    assert r3[1..] == r4;
    Unfold(p, s3, r3);
    assert r2[1..] == r3;
    Unfold(p, s2, r2);
    assert r1[1..] == r2;
    Unfold(p, s1, r1);
    Unfold(p, INIT, run);
  }

  /** The next part: the wait, and a sweep that lists blob 1 while the late URL can still land. */
  lemma OrphanRunScans(p: Params, s: State) returns (t: State)
    requires p.grace < Reach(p)
    requires s.now == p.skew + p.delay && s.storage == map[] && s.sweep == Idle
    requires s.blobs == map[1 := Blob(0, 0, Some(0)), 2 := Blob(0, 1, None)]
    requires s.urls == {Url(1, 0, p.skew + p.delay + p.ttl)}
    ensures CanRun(p, s, OrphanRun(p)[5..8]) && Run(p, s, OrphanRun(p)[5..8]) == t
    ensures t.blobs == s.blobs && t.storage == s.storage && t.urls == s.urls
    ensures t.sweep == Deleting(t.now - p.grace, [Eligible(1, 0)], false)
    ensures 1 <= t.now - p.grace && CanStillLand(p, t, Url(1, 0, p.skew + p.delay + p.ttl))
  {
    hide Presign, Sign, SnapshotInsert, SnapshotSwap, Push, Lists, DeleteRow, DeleteObject;
    var run := OrphanRun(p)[5..8];
    var s1 := Next(p, s, run[0]);
    var s2 := Next(p, s1, run[1]);
    SweepOfOne(p, s2);
    t := Next(p, s2, run[2]);
    var r2, r1 := run[2..], run[1..];
    assert r2[1..] == [] && r1[1..] == r2;
    hide Next, Enabled;
    Unfold(p, s2, r2);
    Unfold(p, s1, r1);
    Unfold(p, s, run);
  }

  /** The end: the upload lands between the two deletes. */
  lemma OrphanRunDeletes(p: Params, s: State)
    requires s.blobs == map[1 := Blob(0, 0, Some(0)), 2 := Blob(0, 1, None)] && s.storage == map[]
    requires s.urls == {Url(1, 0, p.skew + p.delay + p.ttl)}
    requires s.sweep == Deleting(s.now - p.grace, [Eligible(1, 0)], false)
    requires 1 <= s.now - p.grace && CanStillLand(p, s, Url(1, 0, p.skew + p.delay + p.ttl))
    ensures CanRun(p, s, OrphanRun(p)[8..]) && !NoOrphan(Run(p, s, OrphanRun(p)[8..]))
  {
    hide Presign, Sign, SnapshotInsert, SnapshotSwap, Push, Lists, NoOrphan;
    var run := OrphanRun(p)[8..];
    var s1 := Next(p, s, run[0]);
    var s2 := Next(p, s1, run[1]);
    var s3 := Next(p, s2, run[2]);
    Orphaned(s3, 1);
    var r2, r1 := run[2..], run[1..];
    assert r2[1..] == [] && r1[1..] == r2;
    hide Next, Enabled;
    Unfold(p, s2, r2);
    Unfold(p, s1, r1);
    Unfold(p, s, run);
  }

  /** The second half: the sweep and the upload interleave. */
  lemma OrphanRunSweeps(p: Params, s: State)
    requires p.grace < Reach(p)
    requires s.now == p.skew + p.delay && s.storage == map[] && s.sweep == Idle
    requires s.blobs == map[1 := Blob(0, 0, Some(0)), 2 := Blob(0, 1, None)]
    requires s.urls == {Url(1, 0, p.skew + p.delay + p.ttl)}
    ensures CanRun(p, s, OrphanRun(p)[5..]) && !NoOrphan(Run(p, s, OrphanRun(p)[5..]))
  {
    hide OrphanRun, CanRun, Run, Next, NoOrphan;
    var run := OrphanRun(p);
    OrphanRunLength(p);
    var t := OrphanRunScans(p, s);
    OrphanRunDeletes(p, t);
    RunConcat(p, s, run[5..8], run[8..]);
    assert run[5..] == run[5..8] + run[8..];
  }

  lemma OrphanRunLength(p: Params)
    ensures |OrphanRun(p)| == 11
  {
  }

  lemma Orphaned(s: State, h: Hash)
    requires h in s.storage && h !in s.blobs
    ensures !NoOrphan(s)
  {
  }

  lemma SweepOfOne(p: Params, s: State)
    requires s.sweep.Started? && s.sweep.cutoff >= 1
    requires s.blobs == map[1 := Blob(0, 0, Some(0)), 2 := Blob(0, 1, None)]
    ensures Enabled(p, s, SweepScan([Eligible(1, 0)]))
  {
  }

  lemma {:induction false} RunConcat(p: Params, s: State, xs: seq<Step>, ys: seq<Step>)
    requires CanRun(p, s, xs) && CanRun(p, Run(p, s, xs), ys)
    ensures CanRun(p, s, xs + ys) && Run(p, s, xs + ys) == Run(p, Run(p, s, xs), ys)
    decreases |xs|
  {
    if xs == [] {
      assert xs + ys == ys;
    } else {
      assert (xs + ys)[1..] == xs[1..] + ys;
      RunConcat(p, Next(p, s, xs[0]), xs[1..], ys);
    }
  }

  /** What a presign answers: an object that is not there always gets an upload URL, and no URL is handed
      out exactly for a blob that was known and whose object was seen. */
  lemma UrlUnlessSeen(p: Params, s: State, x: Signing, sees: bool)
    requires Enabled(p, s, SignStep(x, sees))
    ensures var s' := Next(p, s, SignStep(x, sees));
            var url := Url(x.hash, x.pinned, s.now + p.ttl);
            && s'.urls == (if !x.created && sees then s.urls else s.urls + {url})
            && (x.hash !in s.storage ==> url in s'.urls)
            && s'.signing == s.signing - {x}
  {
  }

  /** A presign of a known blob, its URL, and the upload. */
  function ReuploadRun(p: Params, s: State, part: Part, h: Hash, size: u64, limits: Limits): seq<Step>
    requires h in s.blobs
  {
    [PresignStep(part, h, size, limits, s.now), SignStep(Signing(h, s.blobs[h].size, s.now, false), false),
     Put(Url(h, s.blobs[h].size, s.now + p.ttl))]
  }

  /** A blob that has lost its object can always get it back: from any state, one more presign of it, by any
      part and at any quota, leads to an upload of the length recorded before, and costs nothing again. */
  lemma LostObjectReturns(p: Params, s: State, part: Part, h: Hash, size: u64, limits: Limits)
    requires h in s.blobs
    ensures var run := ReuploadRun(p, s, part, h, size, limits);
            && CanRun(p, s, run)
            && var s' := Run(p, s, run);
               && h in s'.storage && s'.storage[h] == s.blobs[h].size && s'.usage == s.usage
               && part in s'.objects && s'.objects[part] == h && h in s'.blobs && s'.blobs[h].size == s.blobs[h].size
  {
    var run := ReuploadRun(p, s, part, h, size, limits);
    var s1 := Next(p, s, run[0]);
    var s2 := Next(p, s1, run[1]);
    var s3 := Next(p, s2, run[2]);
    DroppedRow(s, part, h, s.now, h);
    assert run[1..][1..] == run[2..] && run[2..][1..] == [];
    Unfold(p, s2, run[2..]);
    Unfold(p, s1, run[1..]);
    Unfold(p, s, run);
  }

  /** No interleaving of presigns, uploads and sweeps ever leaves an object in storage without a
      row, exactly when the grace period covers the whole reach of a presign: transaction, answer,
      URL lifetime and transfer. */
  lemma NeverOrphansIff(p: Params)
    ensures NeverOrphans(p) <==> p.grace >= Reach(p)
  {
    if p.grace >= Reach(p) {
      forall steps | CanRun(p, INIT, steps)
        ensures NoOrphan(Run(p, INIT, steps))
      {
        RunKeepsInv(p, INIT, steps);
      }
    } else {
      var run := OrphanRun(p);
      var s := OrphanRunReleases(p);
      OrphanRunSweeps(p, s);
      RunConcat(p, INIT, run[..5], run[5..]);
      assert run == run[..5] + run[5..];
    }
  }

  /** A row is only ever deleted when no part is mapped to it, and none has been for longer than
      the grace period less one transaction. */
  lemma DeletedRowWasLongUnmapped(p: Params, steps: seq<Step>, h: Hash)
    requires CanRun(p, INIT, steps)
    requires var s := Run(p, INIT, steps);
             && Enabled(p, s, SweepRow) && h in s.blobs && h !in Next(p, s, SweepRow).blobs
    ensures var s := Run(p, INIT, steps);
            && (forall q :: q in s.objects ==> s.objects[q] != h)
            && h in s.leftAt && s.now - s.leftAt[h] > p.grace - p.skew
  {
    hide Run, CanRun, Count;
    RunKeepsInv(p, INIT, steps);
    NothingPointsAt(Run(p, INIT, steps), h);
  }

  /** In every reachable state a blob's refcount is the number of parts mapped to it, every mapping
      has a row, and a blob is stamped released exactly while nothing maps to it. */
  lemma RefcountsCountMappings(p: Params, steps: seq<Step>)
    requires CanRun(p, INIT, steps)
    ensures Counted(Run(p, INIT, steps)) && Stamped(p, Run(p, INIT, steps))
  {
    RunKeepsInv(p, INIT, steps);
  }
}
