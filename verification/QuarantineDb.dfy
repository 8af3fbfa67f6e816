/** The quarantine as the sync engine runs it: a stash table of encoded rows, updated in place by
    merges and by the loop of a replay pass. Every method is proved to take the step of
    `Quarantine` that it stands for. */
module QuarantineDb {
  import opened Wrappers
  import opened Bytes
  import opened Codec
  import opened Quarantine
  import opened ReplayCounts

  /** One row of the pending-changes table. */
  datatype StashRow = StashRow(id: nat, tbl: seq<byte>, cid: seq<byte>, blob: seq<byte>)

  function BodyOf(blob: seq<byte>): Body {
    match Decoded(blob)
    case Err(_) => Corrupt
    case Ok(rows) => if rows == [] then Empty else Holds(rows[0])
  }

  function EntryOf(p: StashRow): Entry { Entry(p.id, BodyOf(p.blob)) }

  function Entries(ps: seq<StashRow>): (es: seq<Entry>)
    ensures |es| == |ps|
    ensures forall i :: 0 <= i < |ps| ==> es[i] == EntryOf(ps[i])
  {
    if ps == [] then [] else [EntryOf(ps[0])] + Entries(ps[1..])
  }

  /** The two columns the readiness filter looks at agree with the blob. */
  predicate Labelled(p: StashRow) {
    BodyOf(p.blob).Holds? ==> p.tbl == BodyOf(p.blob).row.table && p.cid == BodyOf(p.blob).row.cid
  }

  lemma EntriesConcat(a: seq<StashRow>, b: seq<StashRow>)
    ensures Entries(a + b) == Entries(a) + Entries(b)
  {
  }

  /** What `stash` writes decodes to exactly the row it was given. */
  lemma StashedBlobHoldsItsRow(r: ChangeRow)
    requires RowFits(r)
    ensures Decoded(Encoded([r])) == Ok([r]) && BodyOf(Encoded([r])) == Holds(r)
  {
    EncodeThenDecode([r], []);
    assert Encoded([r]) + [] == Encoded([r]);
  }

  /** Whether each table was a CRR when this merge or pass first asked. */
  class CrrCache {
    var known: map<seq<byte>, bool>

    constructor ()
      ensures known == map[]
    {
      known := map[];
    }

    method IsCrr(schema: Schema, table: seq<byte>) returns (b: bool)
      modifies this
      ensures known == Cached(old(known), schema, table)
      ensures table in known && b == known[table]
    {
      if table in known { return known[table]; }
      b := table in schema.crr;
      known := known[table := b];
    }

    /** Every answer so far is what `schema` says. */
    ghost predicate Agrees(schema: Schema)
      reads this
    {
      forall t :: t in known ==> known[t] == (t in schema.crr)
    }
  }

  /** The keys of the ready rows of `stash` that belong to `tables`. */
  ghost function ReadyIn(schema: Schema, stash: seq<Entry>, tables: set<seq<byte>>): set<Key> {
    set e | e in stash && e.body.Holds? && Ready(schema, e.body.row) && e.body.row.table in tables
      :: KeyOf(e.body.row)
  }

  lemma ReadyInAppend(schema: Schema, es: seq<Entry>, e: Entry, tables: set<seq<byte>>)
    ensures ReadyIn(schema, es + [e], tables) == ReadyIn(schema, es, tables) +
              if e.body.Holds? && Ready(schema, e.body.row) && e.body.row.table in tables
              then {KeyOf(e.body.row)} else {}
  {
  }

  /** For the rows of one changeset, looking only at its own tables makes no difference. */
  lemma SameBarrier(schema: Schema, stash: seq<Entry>, rows: seq<ChangeRow>)
    ensures forall r :: r in rows ==>
              (KeyOf(r) in ReadyIn(schema, stash, set r | r in rows :: r.table) <==>
               KeyOf(r) in Quarantine.ReadyStashedKeys(schema, stash))
  {
  }

  lemma MergeFirst(d: Device, barrier: set<Key>, rows: seq<ChangeRow>, i: nat)
    requires i < |rows|
    ensures MergeRows(d, barrier, rows[i..]) == MergeRows(MergeRow(d, barrier, rows[i]), barrier, rows[i + 1..])
  {
    assert rows[i..][0] == rows[i] && rows[i..][1..] == rows[i + 1..];
  }

  lemma MergeNone(d: Device, barrier: set<Key>, none: seq<ChangeRow>)
    requires none == []
    ensures MergeRows(d, barrier, none) == d
  {
  }

  lemma NoneReady(schema: Schema, ps: seq<StashRow>, t: seq<byte>)
    ensures ReadyIn(schema, Entries(ps[..0]), {t}) == {}
  {
  }

  lemma EntriesUpTo(ps: seq<StashRow>, i: nat)
    requires i < |ps|
    ensures Entries(ps[..i + 1]) == Entries(ps[..i]) + [EntryOf(ps[i])]
  {
    assert ps[..i + 1] == ps[..i] + [ps[i]];
    EntriesConcat(ps[..i], [ps[i]]);
    assert Entries([ps[i]]) == [EntryOf(ps[i])];
  }

  /** Pulled rows come out of the decoder, so they fit the codec. */
  predicate StepFits(s: Step) {
    s.MergeCommits? ==> Fits(s.rows)
  }

  ghost predicate WorldFits(w: World) {
    && (forall i: nat, s :: s in w.beforeLook(i) ==> StepFits(s))
    && (forall i: nat, s :: s in w.beforeCommit(i) ==> StepFits(s))
  }

  class Database {
    var schema: Schema
    var applied: seq<ChangeRow>
    var pending: seq<StashRow>
    var nextId: nat
    /** The recorded counts of the last pass that came to its end. */
    var savedWaiting: Option<nat>
    var savedFailed: Option<nat>
    ghost var arrived: seq<ChangeRow>

    ghost function View(): Device
      reads this
    {
      Device(schema, applied, Entries(pending), nextId, None, arrived)
    }

    ghost predicate Valid()
      reads this
    {
      forall p :: p in pending ==> Labelled(p)
    }

    constructor (s: Schema)
      ensures Valid() && View() == Quarantine.Init(s)
    {
      schema, applied, pending, nextId, arrived := s, [], [], 1, [];
      savedWaiting, savedFailed := None, None;
    }

    method IsDeferrable(crr: CrrCache, r: ChangeRow) returns (b: bool)
      modifies crr
      ensures crr.known == Cached(old(crr.known), schema, r.table)
      ensures b == (!crr.known[r.table] || !ColumnReady(schema, r))
      ensures b <==> !crr.known[r.table] || (r.cid != SENTINEL_CID && (r.table, r.cid) !in schema.columns)
    {
      var isCrr := crr.IsCrr(schema, r.table);
      if !isCrr { return true; }
      if r.cid == SENTINEL_CID { return false; }
      b := (r.table, r.cid) !in schema.columns;
    }

    /** Among the tables of one changeset, the keys that have a ready row in the stash. */
    method ReadyStashedKeys(crr: CrrCache, rows: seq<ChangeRow>) returns (keys: set<Key>)
      requires Valid() && crr.Agrees(schema)
      modifies crr
      ensures crr.Agrees(schema)
      ensures keys == ReadyIn(schema, Entries(pending), set r | r in rows :: r.table)
    {
      var tables := set r | r in rows :: r.table;
      ghost var done: set<seq<byte>> := {};
      keys := {};
      while tables != {}
        invariant crr.Agrees(schema)
        invariant done + tables == set r | r in rows :: r.table
        invariant keys == ReadyIn(schema, Entries(pending), done)
        decreases |tables|
      {
        var t :| t in tables;
        tables := tables - {t};
        done := done + {t};
        var isCrr := crr.IsCrr(schema, t);
        if isCrr {
          var more := ReadyKeysOfTable(t);
          keys := keys + more;
        }
      }
    }

    method ReadyKeysOfTable(t: seq<byte>) returns (keys: set<Key>)
      requires Valid() && t in schema.crr
      ensures keys == ReadyIn(schema, Entries(pending), {t})
    {
      hide ReadyIn, Entries, Decoded;
      var colReady: map<seq<byte>, bool> := map[];
      keys := {};
      NoneReady(schema, pending, t);
      for i := 0 to |pending|
        invariant forall c :: c in colReady ==>
                    colReady[c] == (c == SENTINEL_CID || (t, c) in schema.columns)
        invariant keys == ReadyIn(schema, Entries(pending[..i]), {t})
      {
        var p := pending[i];
        EntriesUpTo(pending, i);
        ReadyInAppend(schema, Entries(pending[..i]), EntryOf(p), {t});
        assert Labelled(p);
        if p.tbl == t {
          var ready;
          if p.cid in colReady {
            ready := colReady[p.cid];
          } else {
            ready := p.cid == SENTINEL_CID || (t, p.cid) in schema.columns;
            colReady := colReady[p.cid := ready];
          }
          if ready {
            var decoded := Decode(p.blob);
            if decoded.Ok? && decoded.value != [] {
              var r := decoded.value[0];
              keys := keys + {(r.table, r.pk)};
            }
          }
        }
      }
      assert pending[..|pending|] == pending;
    }

    method Stash(r: ChangeRow)
      requires Valid() && RowFits(r)
      modifies this`pending, this`nextId
      ensures Valid()
      ensures View() == old(View()).(stash := old(View()).stash + [Entry(old(nextId), Holds(r))],
                                     nextId := old(nextId) + 1)
    {
      var blob := Encode([r]);
      StashedBlobHoldsItsRow(r);
      var row := StashRow(nextId, r.table, r.cid, blob);
      EntriesConcat(pending, [row]);
      assert Entries([row]) == [EntryOf(row)];
      pending := pending + [row];
      nextId := nextId + 1;
    }

    /** Apply one row, or quarantine it; `accepts` is cr-sqlite's verdict if it is tried. */
    method ApplyOrQuarantine(crr: CrrCache, barrier: set<Key>, r: ChangeRow, accepts: bool)
      returns (quarantined: bool, failed: bool)
      requires Valid() && crr.Agrees(schema) && RowFits(r)
      modifies this`applied, this`pending, this`nextId, crr
      ensures Valid() && crr.Agrees(schema)
      ensures quarantined == Quarantined(schema, barrier, r)
      ensures quarantined <==>
                (r.table, r.pk) in barrier || r.table !in schema.crr
                || (r.cid != SENTINEL_CID && (r.table, r.cid) !in schema.columns)
      ensures failed == (!quarantined && !accepts)
      ensures !failed ==> View() == MergeRow(old(View()), barrier, r)
    {
      var behind := barrier != {} && (r.table, r.pk) in barrier;
      quarantined := behind;
      if !behind {
        quarantined := IsDeferrable(crr, r);
      }
      failed := false;
      if quarantined {
        Stash(r);
      } else if accepts {
        applied := applied + [r];
      } else {
        failed := true;
      }
    }

    /** The rows of a changeset that the merge would try to apply right away. */
    ghost function Direct(rows: seq<ChangeRow>): set<nat>
      reads this
    {
      set j: nat | j < |rows| &&
        !Quarantined(schema, Quarantine.ReadyStashedKeys(schema, Entries(pending)), rows[j])
    }

    /** Merge a pulled changeset in one transaction. `accepts(j)` is cr-sqlite's verdict on the
        j-th row; one rejected row that was ready rolls the whole changeset back. */
    method MergeChangeset(rows: seq<ChangeRow>, accepts: nat -> bool)
      returns (r: Result<(nat, nat), nat>)
      requires Valid() && Fits(rows)
      modifies this`applied, this`pending, this`nextId, this`arrived
      ensures Valid()
      ensures r.Ok? <==> forall j :: j in old(Direct(rows)) ==> accepts(j)
      ensures r.Ok? ==> View() == Next(old(View()), MergeCommits(rows))
      ensures r.Ok? ==> r.value.0 + r.value.1 == |rows| && r.value.1 == |pending| - |old(pending)|
      ensures r.Err? ==> View() == Next(old(View()), MergeFails)
      ensures r.Err? ==> r.error in old(Direct(rows)) && !accepts(r.error)
    {
      hide Entries, MergeRows, ReadyIn, Quarantine.ReadyStashedKeys;
      ghost var start := View();
      ghost var spec := Quarantine.ReadyStashedKeys(schema, Entries(pending));
      var savedApplied, savedPending, savedNextId := applied, pending, nextId;
      var crr := new CrrCache();
      var barrier := ReadyStashedKeys(crr, rows);
      SameBarrier(schema, Entries(pending), rows);
      assert rows[0..] == rows;
      var nApplied, nQuarantined := 0, 0;
      for i := 0 to |rows|
        invariant Valid() && crr.Agrees(schema) && fresh(crr)
        invariant schema == old(schema) && arrived == old(arrived)
        invariant MergeRows(start, spec, rows) == MergeRows(View(), spec, rows[i..])
        invariant forall j :: j in old(Direct(rows)) && j < i ==> accepts(j)
        invariant nApplied + nQuarantined == i && |pending| == |old(pending)| + nQuarantined
      {
        ghost var before := View();
        var quarantined, failed := ApplyOrQuarantine(crr, barrier, rows[i], accepts(i));
        assert quarantined == Quarantined(schema, spec, rows[i]);
        if failed {
          applied, pending, nextId := savedApplied, savedPending, savedNextId;
          assert View() == start;
          return Err(i);
        }
        assert View() == MergeRow(before, spec, rows[i]);
        MergeFirst(before, spec, rows, i);
        if quarantined { nQuarantined := nQuarantined + 1; } else { nApplied := nApplied + 1; }
      }
      MergeNone(View(), spec, rows[|rows|..]);
      arrived := arrived + rows;
      r := Ok((nApplied, nQuarantined));
    }

    // ---- Replay ------------------------------------------------------------------------------

    method DeleteStashed(id: nat)
      requires Valid()
      modifies this`pending
      ensures Valid()
      ensures View() == old(View()).(stash := Delete(old(View()).stash, id))
    {
      DeleteCommutes(pending, id);
      pending := Without(pending, id);
      assert forall p :: p in Without(old(pending), id) ==> p in old(pending);
    }

    /** What other connections do to this database between two steps of a pass. */
    method Interfere(steps: seq<Step>)
      requires Valid() && forall s :: s in steps ==> WorldStep(s) && StepFits(s)
      modifies this`schema, this`applied, this`pending, this`nextId, this`arrived
      ensures Valid()
      ensures View() == RunWorld(old(View()), steps)
    {
      ghost var start := View();
      assert steps[0..] == steps;
      for i := 0 to |steps|
        invariant Valid()
        invariant RunWorld(start, steps) == RunWorld(View(), steps[i..])
      {
        ghost var before := View();
        assert steps[i] in steps && WorldStep(steps[i]) && StepFits(steps[i]);
        match steps[i] {
          case MergeCommits(rows) => var _ := MergeChangeset(rows, _ => true);
          case Convert(t) => schema := schema.(crr := schema.crr + {t});
          case AddColumn(t, c) => schema := schema.(columns := schema.columns + {(t, c)});
          case _ =>
        }
        assert View() == Next(before, steps[i]);
        assert steps[i..][0] == steps[i] && steps[i..][1..] == steps[i + 1..];
      }
    }

    function Status(): (nat, nat)
      reads this
    {
      (if savedWaiting.Some? then savedWaiting.value else 0, if savedFailed.Some? then savedFailed.value else 0)
    }

    /** The counts of the last pass, known on an idle cycle and after a restart. */
    method ReplayStatus() returns (waiting: nat, failed: nat)
      ensures (waiting, failed) == Status()
    {
      waiting := if savedWaiting.Some? then savedWaiting.value else 0;
      failed := if savedFailed.Some? then savedFailed.value else 0;
    }

    /** Record a pass's counts, writing only what changed. */
    method PersistReplayOutcome(report: Report)
      modifies this`savedWaiting, this`savedFailed
      ensures Status() == (report.waiting, report.failed + report.blocked)
      ensures old(Status()) == Status() ==> savedWaiting == old(savedWaiting) && savedFailed == old(savedFailed)
    {
      var failed := report.failed + report.blocked;
      if savedWaiting != Some(report.waiting) && !(savedWaiting == None && report.waiting == 0) {
        savedWaiting := Some(report.waiting);
      }
      if savedFailed != Some(failed) && !(savedFailed == None && failed == 0) {
        savedFailed := Some(failed);
      }
    }

    /** One replay pass, and the record of its counts if it came to its end. It does exactly when every
        stashed blob decodes. */
    method ReplayPending(world: World, accepts: nat -> bool) returns (r: Result<Report, CodecError>)
      requires Valid() && Sane(world) && WorldFits(world)
      modifies this
      ensures Valid()
      ensures RunPass(BeginPass(old(View())), world, accepts, 0) ==
              (View(), match r case Ok(report) => Some(report) case Err(_) => None)
      ensures r.Ok? <==> forall p :: p in old(pending) ==> Decoded(p.blob).Ok?
      ensures r.Ok? ==> Status() == (r.value.waiting, r.value.failed + r.value.blocked)
      ensures r.Err? ==> Status() == old(Status())
      ensures r.Ok? ==> r.value.replayed + r.value.waiting + r.value.failed + r.value.blocked ==
                        HowMany(|old(pending)|, (k: nat) => HasRow(old(View()).stash, k))
      ensures r.Ok? && (forall i: nat :: accepts(i)) ==> r.value.failed == 0 && r.value.blocked == 0
      ensures r.Ok? && SchemaStays(world) ==>
                r.value == Tally(old(schema), old(View()).stash, accepts, |old(pending)|)
    {
      hide RunPass, Entries, Decoded, Tally, HowMany;
      PassFinishesIff(BeginPass(View()), world, accepts, 0);
      CorruptEntries(pending);
      if forall e :: e in View().stash ==> !e.body.Corrupt? {
        ReportAddsUp(View(), world, accepts);
        if SchemaStays(world) { ReportIsExact(View(), world, accepts); }
      }
      r := ReplayRows(world, accepts);
      if r.Ok? {
        PersistReplayOutcome(r.value);
      }
    }

    /** The rows of a pass: one transaction per row, in stash order, while the rest of the program
        does `world` in between. An undecodable blob ends the pass with an error. */
    method ReplayRows(world: World, accepts: nat -> bool) returns (r: Result<Report, CodecError>)
      requires Valid() && Sane(world) && WorldFits(world)
      modifies this`schema, this`applied, this`pending, this`nextId, this`arrived
      ensures Valid()
      ensures RunPass(BeginPass(old(View())), world, accepts, 0) ==
              (View(), match r case Ok(report) => Some(report) case Err(_) => None)
    {
      hide RunPass, Entries, Delete, MergeRows, Decoded, RunWorld, ColumnReady, Labelled, Cached;
      var candidates := pending;
      var crr := new CrrCache();
      var failedKeys: set<Key> := {};
      var report := Report(0, 0, 0, 0);
      ghost var m := BeginPass(View());
      ghost var start := m;
      assert candidates[0..] == candidates;
      for i := 0 to |candidates|
        invariant Valid() && fresh(crr)
        invariant m.pass == Some(Pass(Entries(candidates[i..]), crr.known, failedKeys, false, report))
        invariant View() == m.(pass := None)
        invariant RunPass(start, world, accepts, 0) == RunPass(m, world, accepts, i)
      {
        PassUnfolds(m, world, accepts, i);
        EntriesFrom(candidates, i);
        Interfere(world.beforeLook(i));
        WorldIgnoresPass(m, world.beforeLook(i));
        m := RunWorld(m, world.beforeLook(i));
        var decoded := Decode(candidates[i].blob);
        if decoded.Err? { return Err(decoded.error); }
        ghost var looked := ReplayLook(m);
        if decoded.value == [] {
          DeleteStashed(candidates[i].id);
          m := looked;
          continue;
        }
        var row := decoded.value[0];
        var key := (row.table, row.pk);
        if key in failedKeys {
          report := report.(blocked := report.blocked + 1);
          m := looked;
          continue;
        }
        var deferrable := IsDeferrable(crr, row);
        if deferrable {
          report := report.(waiting := report.waiting + 1);
          m := looked;
          continue;
        }
        Interfere(world.beforeCommit(i));
        WorldIgnoresPass(looked, world.beforeCommit(i));
        m := ReplayCommit(RunWorld(looked, world.beforeCommit(i)), accepts(i));
        if !accepts(i) {
          report := report.(failed := report.failed + 1);
          failedKeys := failedKeys + {key};
          continue;
        }
        applied := applied + [row];
        DeleteStashed(candidates[i].id);
        report := report.(replayed := report.replayed + 1);
      }
      NoneLeft(candidates[|candidates|..], m, world, accepts, |candidates|);
      r := Ok(report);
    }
  }

  lemma CorruptEntries(ps: seq<StashRow>)
    ensures (forall e :: e in Entries(ps) ==> !e.body.Corrupt?) <==> (forall p :: p in ps ==> Decoded(p.blob).Ok?)
  {
    hide Decoded;
    var es := Entries(ps);
    forall i | 0 <= i < |ps| ensures es[i].body.Corrupt? <==> Decoded(ps[i].blob).Err? {
      assert es[i] == EntryOf(ps[i]);
    }
    forall p | p in ps && forall e :: e in es ==> !e.body.Corrupt? ensures Decoded(p.blob).Ok? {
      var i :| 0 <= i < |ps| && ps[i] == p;
      assert es[i] in es;
    }
  }

  lemma EntriesFrom(ps: seq<StashRow>, i: nat)
    requires i < |ps|
    ensures Entries(ps[i..]) != [] && Entries(ps[i..])[0] == EntryOf(ps[i])
    ensures Entries(ps[i..])[1..] == Entries(ps[i + 1..])
  {
  }

  lemma NoneLeft(none: seq<StashRow>, d: Device, w: World, accepts: nat -> bool, i: nat)
    requires Sane(w) && none == []
    requires d.pass.Some? && !d.pass.value.armed && d.pass.value.todo == Entries(none)
    ensures RunPass(d, w, accepts, i) == (d.(pass := None), Some(d.pass.value.report))
  {
  }

  /** One candidate's share of a pass. */
  lemma PassUnfolds(d: Device, w: World, accepts: nat -> bool, i: nat)
    requires Sane(w) && d.pass.Some? && !d.pass.value.armed
    ensures d.pass.value.todo != [] ==>
              var d1 := ReplayLook(RunWorld(d, w.beforeLook(i)));
              RunPass(d, w, accepts, i) ==
                if d1.pass.None? then (d1, None)
                else if !d1.pass.value.armed then RunPass(d1, w, accepts, i + 1)
                else RunPass(ReplayCommit(RunWorld(d1, w.beforeCommit(i)), accepts(i)), w, accepts, i + 1)
  {
  }

  function Without(ps: seq<StashRow>, id: nat): (r: seq<StashRow>)
    ensures forall p :: p in r ==> p in ps
  {
    if ps == [] then [] else (if ps[0].id == id then [] else [ps[0]]) + Without(ps[1..], id)
  }

  lemma {:induction false} DeleteCommutes(ps: seq<StashRow>, id: nat)
    ensures Entries(Without(ps, id)) == Delete(Entries(ps), id)
  {
    if ps != [] {
      DeleteCommutes(ps[1..], id);
      assert Entries(ps)[1..] == Entries(ps[1..]);
      assert Entries(ps)[0] == EntryOf(ps[0]);
      if ps[0].id != id {
        EntriesConcat([ps[0]], Without(ps[1..], id));
        assert Entries([ps[0]]) == [EntryOf(ps[0])];
      }
    }
  }
}
