/** What the report of a replay pass counts, told from the stash and the schema alone. */
module ReplayCounts {
  import opened Wrappers
  import opened Bytes
  import opened Codec
  import opened Quarantine

  ghost function HowMany(n: nat, these: nat -> bool): nat { |set i: nat | i < n && these(i)| }

  lemma OneMore(n: nat, these: nat -> bool)
    ensures HowMany(n + 1, these) == HowMany(n, these) + if these(n) then 1 else 0
    ensures HowMany(0, these) == 0
  {
    var now, was := set i: nat | i < n + 1 && these(i), set i: nat | i < n && these(i);
    assert now == was + if these(n) then {n} else {};
    assert (set i: nat | i < 0 && these(i)) == {};
  }

  predicate HasRow(todo: seq<Entry>, i: nat) { i < |todo| && todo[i].body.Holds? }

  // ---- Under any interference -------------------------------------------------------------------

  /** One candidate's share of a pass that does not end there. */
  ghost function Candidate(d: Device, w: World, applies: nat -> bool, i: nat): (d': Device)
    requires Sane(w) && d.pass.Some? && !d.pass.value.armed && d.pass.value.todo != []
    requires !d.pass.value.todo[0].body.Corrupt?
    ensures d'.pass.Some? && !d'.pass.value.armed && d'.pass.value.todo == d.pass.value.todo[1..]
    ensures RunPass(d, w, applies, i) == RunPass(d', w, applies, i + 1)
  {
    var d1 := ReplayLook(RunWorld(d, w.beforeLook(i)));
    if d1.pass.value.armed then ReplayCommit(RunWorld(d1, w.beforeCommit(i)), applies(i)) else d1
  }

  /** Failures bar keys one by one, and only keys that failed block. */
  ghost predicate Fair(p: Pass) {
    p.report.failed == |p.failedKeys| && (p.report.blocked > 0 ==> p.report.failed > 0)
  }

  function Counted(r: Report): nat { r.replayed + r.waiting + r.failed + r.blocked }

  lemma CandidateCounts(d: Device, w: World, applies: nat -> bool, i: nat)
    requires Sane(w) && d.pass.Some? && !d.pass.value.armed && d.pass.value.todo != []
    requires !d.pass.value.todo[0].body.Corrupt? && Fair(d.pass.value)
    ensures var p, p' := d.pass.value, Candidate(d, w, applies, i).pass.value;
            && Fair(p')
            && Counted(p'.report) == Counted(p.report) + (if p.todo[0].body.Holds? then 1 else 0)
            && (p'.report.failed == p.report.failed || (p'.report.failed == p.report.failed + 1 && !applies(i)))
  {
    hide RunWorld, Cached, ColumnReady, Delete, RunPass;
    var p := d.pass.value;
    if p.failedKeys == {} { assert |p.failedKeys| == 0; }
  }

  lemma {:induction false} RestAddsUp(d: Device, w: World, applies: nat -> bool, todo: seq<Entry>, i: nat)
    requires Sane(w) && d.pass.Some? && !d.pass.value.armed && Fair(d.pass.value)
    requires i <= |todo| && d.pass.value.todo == todo[i..] && RunPass(d, w, applies, i).1.Some?
    requires Counted(d.pass.value.report) == HowMany(i, (k: nat) => HasRow(todo, k))
    requires d.pass.value.report.failed > 0 ==> exists k: nat :: k < i && !applies(k)
    ensures var r := RunPass(d, w, applies, i).1.value;
            && Counted(r) == HowMany(|todo|, (k: nat) => HasRow(todo, k))
            && (r.blocked > 0 ==> r.failed > 0) && (r.failed > 0 ==> exists k: nat :: k < |todo| && !applies(k))
    decreases |todo| - i
  {
    if i < |todo| {
      PassFinishesIff(d, w, applies, i);
      assert todo[i..][0] == todo[i] && todo[i..][1..] == todo[i + 1..];
      assert todo[i] in todo[i..];
      CandidateCounts(d, w, applies, i);
      OneMore(i, (k: nat) => HasRow(todo, k));
      hide Fair, RunPass, HowMany, Candidate, Counted;
      RestAddsUp(Candidate(d, w, applies, i), w, applies, todo, i + 1);
    } else {
      assert todo[i..] == [];
    }
  }

  /** Whatever other connections do during a pass that comes to its end: every candidate but the empty
      blobs is counted exactly once, only a key of which a row failed blocks later rows, and nothing failed
      if every transaction was accepted. */
  lemma ReportAddsUp(d: Device, w: World, applies: nat -> bool)
    requires Sane(w) && RunPass(BeginPass(d), w, applies, 0).1.Some?
    ensures var r := RunPass(BeginPass(d), w, applies, 0).1.value;
            && r.replayed + r.waiting + r.failed + r.blocked == HowMany(|d.stash|, (k: nat) => HasRow(d.stash, k))
            && (r.blocked > 0 ==> r.failed > 0)
            && ((forall k: nat :: k < |d.stash| ==> applies(k)) ==> r.failed == 0 && r.blocked == 0)
  {
    OneMore(0, (k: nat) => HasRow(d.stash, k));
    assert d.stash[0..] == d.stash;
    RestAddsUp(BeginPass(d), w, applies, d.stash, 0);
  }

  // ---- While the schema stays the same ------------------------------------------------------------

  /** The `i`-th candidate could be tried and would be rejected. */
  predicate Bad(schema: Schema, todo: seq<Entry>, applies: nat -> bool, i: nat) {
    HasRow(todo, i) && Ready(schema, todo[i].body.row) && !applies(i)
  }

  /** An earlier row of its key was rejected. */
  predicate IsBlocked(schema: Schema, todo: seq<Entry>, applies: nat -> bool, i: nat) {
    HasRow(todo, i) &&
    exists j: nat :: j < i && Bad(schema, todo, applies, j) && KeyOf(todo[j].body.row) == KeyOf(todo[i].body.row)
  }

  predicate IsWaiting(schema: Schema, todo: seq<Entry>, applies: nat -> bool, i: nat) {
    HasRow(todo, i) && !IsBlocked(schema, todo, applies, i) && !Ready(schema, todo[i].body.row)
  }

  predicate IsFailed(schema: Schema, todo: seq<Entry>, applies: nat -> bool, i: nat) {
    Bad(schema, todo, applies, i) && !IsBlocked(schema, todo, applies, i)
  }

  predicate IsReplayed(schema: Schema, todo: seq<Entry>, applies: nat -> bool, i: nat) {
    && HasRow(todo, i) && !IsBlocked(schema, todo, applies, i)
    && Ready(schema, todo[i].body.row) && applies(i)
  }

  /** The counts of the first `n` candidates, from the stash and the schema. */
  ghost function Tally(schema: Schema, todo: seq<Entry>, applies: nat -> bool, n: nat): Report {
    Report(HowMany(n, (k: nat) => IsReplayed(schema, todo, applies, k)),
           HowMany(n, (k: nat) => IsWaiting(schema, todo, applies, k)),
           HowMany(n, (k: nat) => IsFailed(schema, todo, applies, k)),
           HowMany(n, (k: nat) => IsBlocked(schema, todo, applies, k)))
  }

  lemma TallyOne(schema: Schema, todo: seq<Entry>, applies: nat -> bool, n: nat)
    ensures var t, t' := Tally(schema, todo, applies, n), Tally(schema, todo, applies, n + 1);
            && t'.replayed == t.replayed + (if IsReplayed(schema, todo, applies, n) then 1 else 0)
            && t'.waiting == t.waiting + (if IsWaiting(schema, todo, applies, n) then 1 else 0)
            && t'.failed == t.failed + (if IsFailed(schema, todo, applies, n) then 1 else 0)
            && t'.blocked == t.blocked + (if IsBlocked(schema, todo, applies, n) then 1 else 0)
    ensures Tally(schema, todo, applies, 0) == Report(0, 0, 0, 0)
  {
    OneMore(n, (k: nat) => IsReplayed(schema, todo, applies, k));
    OneMore(n, (k: nat) => IsWaiting(schema, todo, applies, k));
    OneMore(n, (k: nat) => IsFailed(schema, todo, applies, k));
    OneMore(n, (k: nat) => IsBlocked(schema, todo, applies, k));
  }

  /** Other connections merge, but no table and no column appears. */
  ghost predicate SchemaStays(w: World) {
    && (forall i: nat, s :: s in w.beforeLook(i) ==> s.MergeCommits? || s.MergeFails?)
    && (forall i: nat, s :: s in w.beforeCommit(i) ==> s.MergeCommits? || s.MergeFails?)
  }

  lemma {:induction false} MergeKeepsSchema(d: Device, barrier: set<Key>, rows: seq<ChangeRow>)
    ensures MergeRows(d, barrier, rows).schema == d.schema
    decreases |rows|
  {
    if rows != [] {
      MergeKeepsSchema(MergeRow(d, barrier, rows[0]), barrier, rows[1..]);
    }
  }

  lemma {:induction false} MergesKeepSchema(d: Device, steps: seq<Step>)
    requires forall s :: s in steps ==> WorldStep(s) && (s.MergeCommits? || s.MergeFails?)
    ensures RunWorld(d, steps).schema == d.schema
    decreases |steps|
  {
    WorldKeepsPass(d, steps);
    if steps != [] {
      assert steps[0] in steps;
      if steps[0].MergeCommits? {
        MergeKeepsSchema(d, ReadyStashedKeys(d.schema, d.stash), steps[0].rows);
      }
      WorldKeepsPass(Next(d, steps[0]), steps[1..]);
      MergesKeepSchema(Next(d, steps[0]), steps[1..]);
    }
  }

  /** The state of a pass that has looked at the first `i` candidates. */
  ghost predicate Reached(d: Device, schema: Schema, todo: seq<Entry>, applies: nat -> bool, i: nat) {
    && i <= |todo| && d.schema == schema && d.pass.Some?
    && var p := d.pass.value;
       && p.todo == todo[i..] && !p.armed
       && (forall t :: t in p.cache ==> p.cache[t] == (t in schema.crr))
       && (forall k :: k in p.failedKeys <==>
             exists j: nat :: j < i && Bad(schema, todo, applies, j) && KeyOf(todo[j].body.row) == k)
       && p.report == Tally(schema, todo, applies, i)
  }

  lemma CandidateReaches(d: Device, w: World, schema: Schema, todo: seq<Entry>, applies: nat -> bool, i: nat)
    requires Sane(w) && SchemaStays(w) && Reached(d, schema, todo, applies, i)
    requires i < |todo| && !todo[i].body.Corrupt?
    ensures d.pass.Some? && !d.pass.value.armed && d.pass.value.todo != [] && d.pass.value.todo[0] == todo[i]
    ensures Reached(Candidate(d, w, applies, i), schema, todo, applies, i + 1)
  {
    hide RunWorld, RunPass, Delete, Tally;
    assert todo[i..][0] == todo[i] && todo[i..][1..] == todo[i + 1..];
    TallyOne(schema, todo, applies, i);
    MergesKeepSchema(d, w.beforeLook(i));
    var d1 := ReplayLook(RunWorld(d, w.beforeLook(i)));
    MergesKeepSchema(d1, w.beforeCommit(i));
    if todo[i].body.Holds? {
      assert KeyOf(todo[i].body.row) in d.pass.value.failedKeys <==> IsBlocked(schema, todo, applies, i);
    }
  }

  lemma {:induction false} RestIsExact(
    d: Device, w: World, schema: Schema, todo: seq<Entry>, applies: nat -> bool, i: nat)
    requires Sane(w) && SchemaStays(w) && Reached(d, schema, todo, applies, i)
    requires forall e :: e in todo ==> !e.body.Corrupt?
    ensures RunPass(d, w, applies, i).1 == Some(Tally(schema, todo, applies, |todo|))
    decreases |todo| - i
  {
    if i < |todo| {
      CandidateReaches(d, w, schema, todo, applies, i);
      hide RunPass, Reached, Candidate, Tally;
      RestIsExact(Candidate(d, w, applies, i), w, schema, todo, applies, i + 1);
    } else {
      assert todo[i..] == [];
    }
  }

  /** While no table or column appears during the pass, its report counts exactly: the rows accepted; the
      rows left whose table or column is not here, of keys of which no row had failed; the rows rejected, at
      most one of a key; and the later rows of those keys. */
  lemma ReportIsExact(d: Device, w: World, applies: nat -> bool)
    requires Sane(w) && SchemaStays(w) && forall e :: e in d.stash ==> !e.body.Corrupt?
    ensures RunPass(BeginPass(d), w, applies, 0).1 == Some(Tally(d.schema, d.stash, applies, |d.stash|))
  {
    TallyOne(d.schema, d.stash, applies, 0);
    assert d.stash[0..] == d.stash;
    RestIsExact(BeginPass(d), w, d.schema, d.stash, applies, 0);
  }

  // ---- What such a pass leaves in the stash ---------------------------------------------------------

  lemma {:induction false} Deleted(stash: seq<Entry>, id: nat, e: Entry)
    ensures e in Delete(stash, id) <==> e in stash && e.id != id
  {
    if stash != [] {
      Deleted(stash[1..], id, e);
      assert stash == [stash[0]] + stash[1..];
    }
  }

  lemma {:induction false} MergeKeepsOld(d: Device, barrier: set<Key>, rows: seq<ChangeRow>, e: Entry)
    requires e.id < d.nextId
    ensures var d' := MergeRows(d, barrier, rows); e.id < d'.nextId && (e in d'.stash <==> e in d.stash)
    decreases |rows|
  {
    if rows != [] {
      MergeKeepsOld(MergeRow(d, barrier, rows[0]), barrier, rows[1..], e);
    }
  }

  lemma {:induction false} MergesKeepOld(d: Device, steps: seq<Step>, e: Entry)
    requires forall s :: s in steps ==> WorldStep(s) && (s.MergeCommits? || s.MergeFails?)
    requires e.id < d.nextId
    ensures var d' := RunWorld(d, steps); e.id < d'.nextId && (e in d'.stash <==> e in d.stash)
    decreases |steps|
  {
    WorldKeepsPass(d, steps);
    if steps != [] {
      assert steps[0] in steps;
      if steps[0].MergeCommits? {
        MergeKeepsOld(d, ReadyStashedKeys(d.schema, d.stash), steps[0].rows, e);
      }
      WorldKeepsPass(Next(d, steps[0]), steps[1..]);
      MergesKeepOld(Next(d, steps[0]), steps[1..], e);
    }
  }

  /** What a candidate does to an old entry of the stash: it goes exactly if it is this candidate, and empty
      or replayed. */
  lemma CandidateTakes(d: Device, w: World, schema: Schema, todo: seq<Entry>, applies: nat -> bool, i: nat, e: Entry)
    requires Sane(w) && SchemaStays(w) && Reached(d, schema, todo, applies, i)
    requires i < |todo| && !todo[i].body.Corrupt? && e.id < d.nextId
    ensures d.pass.Some? && !d.pass.value.armed && d.pass.value.todo != [] && d.pass.value.todo[0] == todo[i]
    ensures var d' := Candidate(d, w, applies, i);
            && e.id < d'.nextId
            && (e in d'.stash <==>
                  (e in d.stash && (e.id == todo[i].id ==> HasRow(todo, i) && !IsReplayed(schema, todo, applies, i))))
  {
    hide RunWorld, RunPass, Delete, Tally;
    assert todo[i..][0] == todo[i];
    MergesKeepSchema(d, w.beforeLook(i));
    MergesKeepOld(d, w.beforeLook(i), e);
    var before := RunWorld(d, w.beforeLook(i));
    Deleted(before.stash, todo[i].id, e);
    var d1 := ReplayLook(before);
    MergesKeepSchema(d1, w.beforeCommit(i));
    if d1.pass.value.armed {
      MergesKeepOld(d1, w.beforeCommit(i), e);
      Deleted(RunWorld(d1, w.beforeCommit(i)).stash, todo[i].id, e);
    }
    if todo[i].body.Holds? {
      assert KeyOf(todo[i].body.row) in d.pass.value.failedKeys <==> IsBlocked(schema, todo, applies, i);
    }
  }

  lemma NoneIsLeft(d: Device, w: World, schema: Schema, todo: seq<Entry>, applies: nat -> bool)
    requires Sane(w) && Reached(d, schema, todo, applies, |todo|)
    ensures RunPass(d, w, applies, |todo|).0.stash == d.stash
  {
    assert todo[|todo|..] == [];
  }

  lemma {:induction false} RestLeaves(
    d: Device, w: World, schema: Schema, todo: seq<Entry>, applies: nat -> bool, i: nat, k: nat)
    requires Sane(w) && SchemaStays(w) && Reached(d, schema, todo, applies, i)
    requires forall e :: e in todo ==> !e.body.Corrupt?
    requires forall x, y :: 0 <= x < y < |todo| ==> todo[x].id != todo[y].id
    requires i <= |todo| && k < |todo| && todo[k].id < d.nextId
    requires todo[k] in d.stash <==> k >= i || (HasRow(todo, k) && !IsReplayed(schema, todo, applies, k))
    ensures todo[k] in RunPass(d, w, applies, i).0.stash <==>
            HasRow(todo, k) && !IsReplayed(schema, todo, applies, k)
    decreases |todo| - i
  {
    hide IsReplayed, IsBlocked, Bad, Tally, RunPass, Reached, Candidate;
    if i < |todo| {
      CandidateReaches(d, w, schema, todo, applies, i);
      CandidateTakes(d, w, schema, todo, applies, i, todo[k]);
      assert k != i ==> todo[k].id != todo[i].id;
      RestLeaves(Candidate(d, w, applies, i), w, schema, todo, applies, i + 1, k);
    } else {
      NoneIsLeft(d, w, schema, todo, applies);
    }
  }

  /** And exactly the candidates that it counts as waiting, failed or blocked are in the stash afterwards. */
  lemma PassLeavesExactly(d: Device, w: World, applies: nat -> bool, k: nat)
    requires Sane(w) && SchemaStays(w) && forall e :: e in d.stash ==> !e.body.Corrupt?
    requires IdsIncrease(d.stash, d.nextId) && k < |d.stash|
    ensures d.stash[k] in RunPass(BeginPass(d), w, applies, 0).0.stash <==>
            IsWaiting(d.schema, d.stash, applies, k) || IsFailed(d.schema, d.stash, applies, k)
            || IsBlocked(d.schema, d.stash, applies, k)
  {
    TallyOne(d.schema, d.stash, applies, 0);
    assert d.stash[0..] == d.stash;
    RestLeaves(BeginPass(d), w, d.schema, d.stash, applies, 0, k);
  }
}
