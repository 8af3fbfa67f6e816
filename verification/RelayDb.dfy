/** The relay's handlers on the tenant's tables, statement by statement. Each transaction is proved
    to take the step of `Relay` that it stands for; the ghost `st` is that machine's state. */
module RelayDb {
  import opened Wrappers
  import opened Bytes
  import opened Choke
  import opened Relay
  import opened RelayLedger
  import opened Sums

  datatype SweepStats = SweepStats(deleted: nat, bytes: nat, skipped: nat)

  datatype SnapshotAnswer =
    | AlreadyPublished
    | Upload(pinned: nat)
    | Conflict
    | Refused(reason: Refusal)
    /** The old object is gone: meter the growth and swap the row, in a second transaction. */
    | MustRepoint(r: Repoint)

  /** What pointing a part elsewhere does to the blob rows: the one it pointed to has one reference less, and on
      reaching none it is stamped, unless it has a stamp. */
  lemma OldBlobIsReleased(s: State, part: Part, hash: Hash, stamp: Time)
    ensures if part in s.objects && s.objects[part] != hash && s.objects[part] in s.blobs then
              var b := s.blobs[s.objects[part]];
              Dropped(s, part, hash, stamp) ==
                s.blobs[s.objects[part] := Blob(b.size, if b.refcount >= 1 then b.refcount - 1 else 0,
                          if b.refcount <= 1 && b.released.None? then Some(stamp) else b.released)]
            else Dropped(s, part, hash, stamp) == s.blobs
  {
  }

  /** The tables a sweep changes, and its counts. */
  datatype Swept = Swept(blobs: map<Hash, Blob>, storage: map<Hash, nat>, usage: Option<Usage>, stats: SweepStats)

  /** The usage row with the bytes of one blob given back. */
  function Refunded(usage: Option<Usage>, size: nat): Option<Usage> {
    match usage
    case None => None
    case Some(u) => Some(u.(storage := Max0(u.storage - size)))
  }

  function SweptOne(t: Swept, e: Eligible, outcome: DeleteOutcome): Swept {
    match outcome
    case Confirmed =>
      Swept(t.blobs - {e.hash}, t.storage - {e.hash}, Refunded(t.usage, e.size),
            t.stats.(deleted := t.stats.deleted + 1, bytes := t.stats.bytes + e.size))
    case Unconfirmed(gone) =>
      Swept(t.blobs, if gone then t.storage - {e.hash} else t.storage, t.usage,
            t.stats.(skipped := t.stats.skipped + 1))
  }

  function SweptAll(t: Swept, todo: seq<Eligible>, outcomes: Hash -> DeleteOutcome): Swept
    decreases |todo|
  {
    if todo == [] then t else SweptAll(SweptOne(t, todo[0], outcomes(todo[0].hash)), todo[1..], outcomes)
  }

  /** The blobs listed from the `i`-th on still have their eligible rows. */
  ghost predicate StillListed(todo: seq<Eligible>, i: nat, blobs: map<Hash, Blob>, cutoff: Time) {
    && Distinct(todo)
    && forall j :: i <= j < |todo| ==> todo[j].hash in blobs && IsEligible(blobs[todo[j].hash], cutoff)
  }

  lemma FreshList(todo: seq<Eligible>, blobs: map<Hash, Blob>, cutoff: Time)
    requires Lists(todo, blobs, cutoff)
    ensures StillListed(todo, 0, blobs, cutoff)
  {
  }

  lemma HeadListed(todo: seq<Eligible>, i: nat, blobs: map<Hash, Blob>, cutoff: Time)
    requires i < |todo| && StillListed(todo, i, blobs, cutoff)
    ensures todo[i].hash in blobs && IsEligible(blobs[todo[i].hash], cutoff)
  {
  }

  lemma NoneSwept(t: Swept, none: seq<Eligible>, outcomes: Hash -> DeleteOutcome)
    requires none == []
    ensures SweptAll(t, none, outcomes) == t
  {
  }

  lemma OthersStillListed(t: Swept, todo: seq<Eligible>, i: nat, outcome: DeleteOutcome, cutoff: Time)
    requires i < |todo| && StillListed(todo, i, t.blobs, cutoff)
    ensures StillListed(todo, i + 1, SweptOne(t, todo[i], outcome).blobs, cutoff)
  {
  }

  lemma SweepsFirst(t: Swept, todo: seq<Eligible>, i: nat, outcomes: Hash -> DeleteOutcome)
    requires i < |todo|
    ensures SweptAll(t, todo[i..], outcomes) ==
            SweptAll(SweptOne(t, todo[i], outcomes(todo[i].hash)), todo[i + 1..], outcomes)
    ensures todo[i..][0] == todo[i] && todo[i..][1..] == todo[i + 1..]
  {
  }

  /** Exactly the listed blobs whose object delete was confirmed lose their row, and no unlisted
      object is touched. */
  lemma {:induction false} SweepOutcome(t: Swept, todo: seq<Eligible>, outcomes: Hash -> DeleteOutcome, h: Hash)
    ensures var t' := SweptAll(t, todo, outcomes);
            var listed := exists e :: e in todo && e.hash == h;
            && (h in t'.blobs <==> h in t.blobs && !(outcomes(h).Confirmed? && listed))
            && (h in t'.blobs ==> t'.blobs[h] == t.blobs[h])
            && (h in t'.storage ==> h in t.storage && t'.storage[h] == t.storage[h])
            && (h in t.storage && !listed ==> h in t'.storage)
            && (listed && outcomes(h).Confirmed? ==> h !in t'.storage)
    decreases |todo|
  {
    if todo != [] {
      SweepOutcome(SweptOne(t, todo[0], outcomes(todo[0].hash)), todo[1..], outcomes, h);
      assert todo == [todo[0]] + todo[1..];
    }
  }

  /** Exactly the blobs that were unreferenced since before the cutoff and whose object delete was confirmed
      lost their row, and they lost their object. */
  ghost predicate ReclaimsDue(was: map<Hash, Blob>, blobs: map<Hash, Blob>, storage: map<Hash, nat>, cutoff: Time,
                              outcomes: Hash -> DeleteOutcome) {
    forall h ::
      var due := h in was && was[h].refcount <= 0 && was[h].released.Some? && was[h].released.value < cutoff;
      && (h in blobs <==> h in was && !(due && outcomes(h).Confirmed?))
      && (h in blobs ==> blobs[h] == was[h])
      && (due && outcomes(h).Confirmed? ==> h !in storage)
  }

  /** After a sweep of a list from the scan: exactly the blobs that were unreferenced since before the
      cutoff lost their row and their object, as far as their deletes were confirmed. */
  lemma SweptExactlyDue(t: Swept, todo: seq<Eligible>, cutoff: Time, outcomes: Hash -> DeleteOutcome)
    requires Lists(todo, t.blobs, cutoff)
    ensures var t' := SweptAll(t, todo, outcomes);
            ReclaimsDue(t.blobs, t'.blobs, t'.storage, cutoff, outcomes)
  {
    var t' := SweptAll(t, todo, outcomes);
    forall h
      ensures var b := t.blobs;
              var due := h in b && b[h].refcount <= 0 && b[h].released.Some? && b[h].released.value < cutoff;
              && (h in t'.blobs <==> h in b && !(due && outcomes(h).Confirmed?))
              && (h in t'.blobs ==> t'.blobs[h] == b[h])
              && (due && outcomes(h).Confirmed? ==> h !in t'.storage)
    {
      SweepOutcome(t, todo, outcomes, h);
    }
  }

  /** The counts say what happened: `deleted` is the number of rows that went, and every listed
      blob was either deleted or skipped. */
  lemma {:induction false} SweepCounts(t: Swept, todo: seq<Eligible>, outcomes: Hash -> DeleteOutcome)
    requires Distinct(todo) && forall e :: e in todo ==> e.hash in t.blobs
    ensures var t' := SweptAll(t, todo, outcomes);
            && t'.stats.deleted - t.stats.deleted == |t.blobs| - |t'.blobs|
            && t'.stats.deleted + t'.stats.skipped == t.stats.deleted + t.stats.skipped + |todo|
    decreases |todo|
  {
    if todo != [] {
      var e := todo[0];
      var t1 := SweptOne(t, e, outcomes(e.hash));
      forall x | x in todo[1..]
        ensures x.hash in t1.blobs
      {
        assert x.hash != e.hash;
      }
      assert outcomes(e.hash).Confirmed? ==> t.blobs.Keys == t1.blobs.Keys + {e.hash};
      SweepCounts(t1, todo[1..], outcomes);
    }
  }

  function Sizes(todo: seq<Eligible>): nat {
    if todo == [] then 0 else todo[0].size + Sizes(todo[1..])
  }

  /** A sweep gives back what it reclaims as long as the counter covers its list. */
  lemma {:induction false} CoveredSweepRefunds(t: Swept, todo: seq<Eligible>, outcomes: Hash -> DeleteOutcome)
    requires Sizes(todo) <= Stored(t.usage)
    ensures var t' := SweptAll(t, todo, outcomes);
            && Stored(t'.usage) + t'.stats.bytes == Stored(t.usage) + t.stats.bytes
            && t'.usage.Some? == t.usage.Some?
            && (t.usage.Some? ==> t'.usage.value == t.usage.value.(storage := Stored(t'.usage)))
    decreases |todo|
  {
    if todo != [] {
      CoveredSweepRefunds(SweptOne(t, todo[0], outcomes(todo[0].hash)), todo[1..], outcomes);
    }
  }

  function Stored(usage: Option<Usage>): int { if usage.Some? then usage.value.storage else 0 }

  /** Distinct entries of a map add up to at most the whole. */
  lemma {:induction false} ListedSizesBound(todo: seq<Eligible>, sizes: map<Hash, nat>)
    requires Distinct(todo) && forall e :: e in todo ==> e.hash in sizes && sizes[e.hash] == e.size
    ensures Sizes(todo) <= Sum(sizes)
    decreases |todo|
  {
    if todo != [] {
      var e, rest := todo[0], todo[1..];
      SumTakes(sizes, e.hash);
      forall x | x in rest ensures x.hash in sizes - {e.hash} && (sizes - {e.hash})[x.hash] == x.size {
        var i :| 0 <= i < |rest| && rest[i] == x;
        assert todo[i + 1] == x && x in todo;
      }
      ListedSizesBound(rest, sizes - {e.hash});
    }
  }

  lemma ListWithinBlobs(s: State, todo: seq<Eligible>, cutoff: Time)
    requires Lists(todo, s.blobs, cutoff)
    ensures Sizes(todo) <= Sum(BlobSizes(s))
  {
    ListedSizesBound(todo, BlobSizes(s));
  }

  /** What a sweep refunds is what it reclaims: in every reachable state, for whatever it lists and
      however its deletes turn out, the storage counter falls by exactly the bytes reported. */
  lemma SweepRefunds(p: Params, steps: seq<Step>, cutoff: Time, todo: seq<Eligible>, outcomes: Hash -> DeleteOutcome)
    requires CanRun(p, INIT, steps) && Lists(todo, Run(p, INIT, steps).blobs, cutoff)
    ensures var s := Run(p, INIT, steps);
            var t := SweptAll(Swept(s.blobs, s.storage, s.usage, SweepStats(0, 0, 0)), todo, outcomes);
            && Stored(t.usage) == Stored(s.usage) - t.stats.bytes
            && t.usage.Some? == s.usage.Some?
            && (s.usage.Some? ==> t.usage.value.upload == s.usage.value.upload)
  {
    hide Run, CanRun, SweptAll, Lists, Sum, BlobSizes, SnapshotSizes, Sizes, INIT;
    NeverUnderMeters(p, steps);
    var s := Run(p, INIT, steps);
    ListWithinBlobs(s, todo, cutoff);
    CoveredSweepRefunds(Swept(s.blobs, s.storage, s.usage, SweepStats(0, 0, 0)), todo, outcomes);
  }

  class TenantStore {
    const p: Params
    const usage: UsageTable
    var now: Time
    var blobs: map<Hash, Blob>
    var objects: map<Part, Hash>
    var storage: map<Hash, nat>
    var snapshots: map<Generation, Snapshot>
    ghost var st: State

    ghost predicate Valid()
      reads this, usage
    {
      && now == st.now && blobs == st.blobs && objects == st.objects && storage == st.storage
      && snapshots == st.snapshots && usage.row == st.usage
      && (usage.row.Some? ==>
            0 <= usage.row.value.storage <= I64_MAX && 0 <= usage.row.value.upload <= I64_MAX)
    }

    constructor (params: Params)
      ensures Valid() && fresh(usage) && p == params && st == INIT
    {
      p := params;
      usage := new UsageTable();
      now, blobs, objects, storage, snapshots := 0, map[], map[], map[], map[];
      st := INIT;
    }

    /** Add one mapping reference and clear the release stamp. */
    method AddReference(hash: Hash)
      requires hash in blobs
      modifies this`blobs
      ensures blobs == old(blobs)[hash := AddRef(old(blobs)[hash])]
    {
      var b := blobs[hash];
      blobs := blobs[hash := b.(refcount := b.refcount + 1, released := None)];
    }

    /** If the part points away from `hash`, its blob loses that reference. */
    method DropOldReference(part: Part, hash: Hash, stamp: Time)
      requires Valid()
      modifies this`blobs
      ensures blobs == Dropped(st, part, hash, stamp)
    {
      if part in objects && objects[part] != hash {
        var away := objects[part];
        if away in blobs {
          var b := blobs[away];
          blobs := blobs[away := b.(
            refcount := if b.refcount - 1 < 0 then 0 else b.refcount - 1,
            released := if b.refcount - 1 <= 0 && b.released.None? then Some(stamp) else b.released)];
        }
      }
    }

    /** The presign transaction. On a quota refusal every statement before it rolls back. */
    method PresignTx(part: Part, hash: Hash, size: u64, limits: Limits, stamp: Time)
      returns (r: Result<Signing, Refusal>)
      requires Valid() && now - p.skew <= stamp <= now
      modifies this, usage
      ensures Valid() && st == Presign(old(st), part, hash, size, limits, stamp)
      ensures r.Ok? ==> r.value in st.signing && r.value.hash == hash && r.value.committed == st.now
      ensures r.Ok? ==> part in objects && objects[part] == hash && hash in blobs
      ensures r.Ok? ==> r.value.created == (hash !in old(st).blobs)
      ensures r.Err? ==> st == old(st)
      ensures r.Err? <==> hash !in old(st).blobs
                          && !Admits(Opened(old(st).usage, limits, old(st).now), limits, size)
    {
      hide Admits, Opened, Charged, Dropped, HasRoom, Choke.After, Lists;
      var savedBlobs, savedObjects := blobs, objects;
      var existing := hash in blobs;
      var stored: nat := if existing then blobs[hash].size else size;
      var samePartSameBlob := part in objects && objects[part] == hash;
      DroppedRow(st, part, hash, stamp, hash);
      DropOldReference(part, hash, stamp);
      objects := objects[part := hash];
      if existing {
        if !samePartSameBlob {
          AddReference(hash);
        }
      } else {
        blobs := blobs[hash := Blob(Clip(size), 1, None)];
        var refused := usage.Admit(limits, size, now);
        if refused.Some? {
          blobs, objects := savedBlobs, savedObjects;
          return Err(refused.value);
        }
      }
      st := Presign(st, part, hash, size, limits, stamp);
      r := Ok(Signing(hash, stored, now, !existing));
    }

    /** The answer, after the commit: an upload URL, unless the blob was known and its object is seen. */
    method Answer(x: Signing, sees: bool) returns (url: Option<Url>)
      requires Valid() && Enabled(p, st, SignStep(x, sees))
      modifies this`st
      ensures Valid() && st == Next(p, old(st), SignStep(x, sees))
      ensures url.None? <==> !x.created && sees
      ensures url.Some? ==> url.value == Url(x.hash, x.pinned, now + p.ttl) && url.value in st.urls
      ensures x.hash !in storage ==> url.Some?
    {
      st := Next(p, st, SignStep(x, sees));
      if !x.created && sees { return None; }
      return Some(Url(x.hash, x.pinned, now + p.ttl));
    }

    // ---- Garbage collection -----------------------------------------------------------------

    /** The blobs eligible at `cutoff`, in some order. */
    method Scan(cutoff: Time) returns (todo: seq<Eligible>)
      requires Valid()
      ensures Lists(todo, blobs, cutoff)
    {
      var rest := set h | h in blobs && IsEligible(blobs[h], cutoff);
      todo := [];
      while rest != {}
        invariant rest <= set h | h in blobs && IsEligible(blobs[h], cutoff)
        invariant forall h :: h in blobs && IsEligible(blobs[h], cutoff) ==>
                    (h in rest <==> Eligible(h, blobs[h].size) !in todo)
        invariant forall e :: e in todo ==>
                    e.hash in blobs && IsEligible(blobs[e.hash], cutoff) && e.size == blobs[e.hash].size
        invariant Distinct(todo)
        decreases |rest|
      {
        var h :| h in rest;
        assert Eligible(h, blobs[h].size) !in todo;
        todo := todo + [Eligible(h, blobs[h].size)];
        rest := rest - {h};
      }
    }

    /** Phase 1: delete the object. */
    method DeleteObjectOf(e: Eligible, outcome: DeleteOutcome) returns (confirmed: bool)
      requires Valid() && Enabled(p, st, SweepObject(outcome)) && e == st.sweep.todo[0]
      modifies this`storage, this`st
      ensures Valid() && st == Next(p, old(st), SweepObject(outcome))
      ensures confirmed == outcome.Confirmed?
    {
      if outcome == Confirmed || outcome == Unconfirmed(true) {
        storage := storage - {e.hash};
      }
      st := DeleteObject(st, outcome);
      confirmed := outcome.Confirmed?;
    }

    /** Phase 2: delete the row if it is still eligible, and give its bytes back. */
    method DeleteRowOf(e: Eligible, cutoff: Time) returns (deleted: bool)
      requires Valid() && Enabled(p, st, SweepRow) && e == st.sweep.todo[0] && cutoff == st.sweep.cutoff
      modifies this`blobs, this`st, usage
      ensures Valid() && st == Next(p, old(st), SweepRow)
      ensures deleted <==> e.hash in old(blobs) && IsEligible(old(blobs)[e.hash], cutoff)
    {
      hide Presign, Sign, SnapshotInsert, SnapshotSwap, Push, Lists, DeleteObject;
      deleted := e.hash in blobs && IsEligible(blobs[e.hash], cutoff);
      if deleted {
        blobs := blobs - {e.hash};
        if usage.row.Some? {
          var left := usage.row.value.storage - e.size;
          usage.row := Some(usage.row.value.(storage := if left < 0 then 0 else left));
        }
      }
      st := DeleteRow(st);
    }

    /** Both phases for one listed blob, with nothing else going on. */
    method SweepOne(e: Eligible, cutoff: Time, outcome: DeleteOutcome, stats: SweepStats)
      returns (stats': SweepStats)
      requires Valid() && st.sweep.Deleting? && st.sweep.todo != [] && !st.sweep.objectGone
      requires e == st.sweep.todo[0] && cutoff == st.sweep.cutoff
      requires e.hash in blobs && IsEligible(blobs[e.hash], cutoff)
      modifies this`storage, this`blobs, this`st, usage
      ensures Valid() && st.sweep == Deleting(cutoff, old(st).sweep.todo[1..], false)
      ensures Swept(blobs, storage, usage.row, stats') ==
              SweptOne(Swept(old(blobs), old(storage), old(usage.row), stats), e, outcome)
    {
      hide Lists;
      var confirmed := DeleteObjectOf(e, outcome);
      if !confirmed {
        return stats.(skipped := stats.skipped + 1);
      }
      var deleted := DeleteRowOf(e, cutoff);
      stats' := if deleted then stats.(deleted := stats.deleted + 1, bytes := stats.bytes + e.size) else stats;
    }

    /** One sweep with nothing else going on. */
    method RunSweep(outcomes: Hash -> DeleteOutcome) returns (stats: SweepStats, ghost todo: seq<Eligible>)
      requires Valid() && st.sweep.Idle?
      modifies this, usage
      ensures Valid() && st.sweep.Idle?
      ensures Lists(todo, old(blobs), now - p.grace)
      ensures Swept(blobs, storage, usage.row, stats) ==
              SweptAll(Swept(old(blobs), old(storage), old(usage.row), SweepStats(0, 0, 0)), todo, outcomes)
      ensures now == old(now) && objects == old(objects) && snapshots == old(snapshots)
      ensures ReclaimsDue(old(blobs), blobs, storage, now - p.grace, outcomes)
    {
      hide ReclaimsDue, IsEligible, SweptOne, SweptAll, Lists, StillListed, Next, Enabled, Distinct;
      var cutoff := now - p.grace;
      st := st.(sweep := Started(cutoff));
      stats := SweepStats(0, 0, 0);
      var listed := Scan(cutoff);
      todo := listed;
      st := st.(sweep := Deleting(cutoff, listed, false));
      assert listed[0..] == listed;
      ghost var start := Swept(blobs, storage, usage.row, stats);
      FreshList(listed, blobs, cutoff);
      for i := 0 to |listed|
        invariant Valid() && st.sweep == Deleting(cutoff, listed[i..], false)
        invariant now == old(now) && objects == old(objects) && snapshots == old(snapshots)
        invariant StillListed(listed, i, blobs, cutoff)
        invariant SweptAll(start, listed, outcomes) ==
                  SweptAll(Swept(blobs, storage, usage.row, stats), listed[i..], outcomes)
      {
        SweepsFirst(Swept(blobs, storage, usage.row, stats), listed, i, outcomes);
        HeadListed(listed, i, blobs, cutoff);
        OthersStillListed(Swept(blobs, storage, usage.row, stats), listed, i, outcomes(listed[i].hash), cutoff);
        stats := SweepOne(listed[i], cutoff, outcomes(listed[i].hash), stats);
      }
      NoneSwept(Swept(blobs, storage, usage.row, stats), listed[|listed|..], outcomes);
      SweptExactlyDue(start, listed, cutoff, outcomes);
      st := st.(sweep := Idle);
    }

    // ---- Snapshots ---------------------------------------------------------------------------

    /** The first transaction of a snapshot presign. `present` is what the existence check of the
        recorded object reports after it. */
    method SnapshotPresign(g: Generation, hash: Hash, size: u64, limits: Limits, present: bool)
      returns (answer: SnapshotAnswer)
      requires Valid()
      modifies this, usage
      ensures Valid()
      ensures answer.MustRepoint? ==>
                && g in old(st).snapshots
                && answer.r == Repoint(g, old(st).snapshots[g].hash, old(st).snapshots[g].size, hash, size)
                && Enabled(p, old(st), SnapshotRead(answer.r)) && st == Next(p, old(st), SnapshotRead(answer.r))
                && answer.r in st.repoints
      ensures g in old(st).snapshots && !answer.MustRepoint? ==> st == old(st)
      ensures old(st).snapshots == snapshots || g !in old(st).snapshots
      ensures g in old(st).snapshots ==>
                var row := old(st).snapshots[g];
                && snapshots == old(st).snapshots && usage.row == old(st).usage
                && (answer == AlreadyPublished <==> row.hash == hash && present)
                && (answer == Upload(row.size) <==> row.hash == hash && !present)
                && (answer == Conflict <==> row.hash != hash && present)
                && (answer.MustRepoint? <==> row.hash != hash && !present)
      ensures g !in old(st).snapshots ==>
                && st == Next(p, old(st), SnapshotInsertStep(g, hash, size, limits))
                && (answer == Upload(size) <==> Admits(Opened(old(usage.row), limits, now), limits, size))
                && (answer.Refused? <==> answer != Upload(size))
                && (answer.Refused? ==> snapshots == old(snapshots) && usage.row == old(usage.row))
                && (answer == Upload(size) ==> snapshots == old(snapshots)[g := Snapshot(hash, Clip(size))])
    {
      if g in snapshots {
        var row := snapshots[g];
        if row.hash == hash {
          return if present then AlreadyPublished else Upload(row.size);
        }
        if present {
          return Conflict;
        }
        var r := Repoint(g, row.hash, row.size, hash, size);
        st := Next(p, st, SnapshotRead(r));
        return MustRepoint(r);
      }
      var saved := snapshots;
      snapshots := snapshots[g := Snapshot(hash, Clip(size))];
      var refused := usage.Admit(limits, size, now);
      st := Next(p, st, SnapshotInsertStep(g, hash, size, limits));
      if refused.Some? {
        snapshots := saved;
        return Refused(refused.value);
      }
      return Upload(size);
    }

    /** The second transaction: reserve the growth, then compare-and-swap on the hash that was
        read. A lost race undoes the reservation. */
    method RepointTx(r: Repoint, limits: Limits) returns (answer: SnapshotAnswer)
      requires Valid() && Enabled(p, st, SnapshotSwapStep(r, limits))
      modifies this, usage
      ensures Valid() && st == Next(p, old(st), SnapshotSwapStep(r, limits))
      ensures var was := old(snapshots);
              var holds := r.generation in was && was[r.generation].hash == r.readHash;
              var bytes := if r.newSize > r.readSize then r.newSize - r.readSize else 0;
              var row := Opened(old(usage.row), limits, now);
              var admitted := Admits(row, limits, bytes);
              && (answer == Upload(r.newSize) <==> admitted && holds)
              && (answer == Conflict <==> admitted && !holds)
              && (answer.Refused? <==> !admitted)
              && (admitted && holds ==>
                    && snapshots == was[r.generation := Snapshot(r.newHash, Clip(r.newSize))]
                    && usage.row == Some(row.(storage := row.storage + Clip(bytes),
                                              upload := row.upload + Clip(bytes))))
              && (!(admitted && holds) ==> snapshots == was && usage.row == old(usage.row))
    {
      hide Admits, Opened, Clip, HasRoom, Presign, Sign, DeleteRow, DeleteObject, SnapshotInsert, Push, Lists;
      var delta: u64 := if r.newSize > r.readSize then r.newSize - r.readSize else 0;
      var savedRow := usage.row;
      var refused := usage.Admit(limits, delta, now);
      if refused.Some? {
        st := Next(p, st, SnapshotSwapStep(r, limits));
        return Refused(refused.value);
      }
      if r.generation !in snapshots || snapshots[r.generation].hash != r.readHash {
        usage.row := savedRow;
        st := Next(p, st, SnapshotSwapStep(r, limits));
        return Conflict;
      }
      snapshots := snapshots[r.generation := Snapshot(r.newHash, Clip(r.newSize))];
      st := Next(p, st, SnapshotSwapStep(r, limits));
      return Upload(r.newSize);
    }
  }
}
