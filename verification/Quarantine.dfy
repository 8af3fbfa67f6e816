/** The quarantine of pulled rows that cannot apply yet, and their replay, as a state machine.
    Merges, schema changes, crashes and the single transactions of a replay pass interleave in
    any order. */
module Quarantine {
  import opened Wrappers
  import opened Bytes
  import opened Codec
  import opened Traces

  type Key = (seq<byte>, seq<byte>)

  /** A row's identity for ordering. */
  function KeyOf(r: ChangeRow): Key { (r.table, r.pk) }

  /** The tables converted to CRRs here, and the columns present here. */
  datatype Schema = Schema(crr: set<seq<byte>>, columns: set<(seq<byte>, seq<byte>)>)

  predicate ColumnReady(s: Schema, r: ChangeRow) {
    r.cid == SENTINEL_CID || (r.table, r.cid) in s.columns
  }

  /** The row can be applied here now. */
  predicate Ready(s: Schema, r: ChangeRow) {
    r.table in s.crr && ColumnReady(s, r)
  }

  /** What a stashed blob decodes to: the first row it holds, no row at all, or nothing. */
  datatype Body = Holds(row: ChangeRow) | Empty | Corrupt

  datatype Entry = Entry(id: nat, body: Body)

  datatype Report = Report(replayed: nat, waiting: nat, failed: nat, blocked: nat)

  /** The local variables of a running replay pass. `armed`: the head of `todo` was found ready
      and waits for its transaction. */
  datatype Pass = Pass(
    todo: seq<Entry>, cache: map<seq<byte>, bool>, failedKeys: set<Key>, armed: bool, report: Report)

  /** `applied` is every row given to cr-sqlite by a committed transaction, in order; `arrived`
      every row of a committed merge, in order. */
  datatype Device = Device(
    schema: Schema, applied: seq<ChangeRow>, stash: seq<Entry>, nextId: nat,
    pass: Option<Pass>, arrived: seq<ChangeRow>)

  function Init(schema: Schema): Device {
    Device(schema, [], [], 1, None, [])
  }

  // ---- Merging a pulled changeset -----------------------------------------------------------

  /** The keys with a stashed row that is ready here now. */
  function ReadyStashedKeys(schema: Schema, stash: seq<Entry>): set<Key> {
    set e | e in stash && e.body.Holds? && Ready(schema, e.body.row) :: KeyOf(e.body.row)
  }

  predicate Quarantined(schema: Schema, barrier: set<Key>, r: ChangeRow) {
    KeyOf(r) in barrier || !Ready(schema, r)
  }

  function MergeRow(d: Device, barrier: set<Key>, r: ChangeRow): Device {
    if Quarantined(d.schema, barrier, r) then
      d.(stash := d.stash + [Entry(d.nextId, Holds(r))], nextId := d.nextId + 1)
    else
      d.(applied := d.applied + [r])
  }

  function MergeRows(d: Device, barrier: set<Key>, rows: seq<ChangeRow>): Device
    decreases |rows|
  {
    if rows == [] then d else MergeRows(MergeRow(d, barrier, rows[0]), barrier, rows[1..])
  }

  /** A committed merge. */
  function Merge(d: Device, rows: seq<ChangeRow>): Device {
    MergeRows(d, ReadyStashedKeys(d.schema, d.stash), rows).(arrived := d.arrived + rows)
  }

  /** A pulled row is held back if it is not ready, or if a ready row of its key is in the stash already. */
  ghost predicate HeldBack(d: Device, r: ChangeRow) {
    || !Ready(d.schema, r)
    || exists e :: e in d.stash && e.body.Holds? && KeyOf(e.body.row) == KeyOf(r) && Ready(d.schema, e.body.row)
  }

  /** Those of the rows that are held back, or those that are not, in order. */
  ghost function Sorted(d: Device, rows: seq<ChangeRow>, held: bool): seq<ChangeRow> {
    if rows == [] then []
    else (if HeldBack(d, rows[0]) == held then [rows[0]] else []) + Sorted(d, rows[1..], held)
  }

  // ---- One replay pass, step by step ----------------------------------------------------------

  function BeginPass(d: Device): Device {
    d.(pass := Some(Pass(d.stash, map[], {}, false, Report(0, 0, 0, 0))))
  }

  function Delete(stash: seq<Entry>, id: nat): seq<Entry> {
    if stash == [] then []
    else (if stash[0].id == id then [] else [stash[0]]) + Delete(stash[1..], id)
  }

  function Cached(cache: map<seq<byte>, bool>, schema: Schema, t: seq<byte>): map<seq<byte>, bool> {
    if t in cache then cache else cache[t := t in schema.crr]
  }

  /** Look at the next candidate, up to the point where its transaction would open. A corrupt
      blob ends the pass with an error; an empty one is deleted. */
  function ReplayLook(d: Device): Device
    requires d.pass.Some? && d.pass.value.todo != [] && !d.pass.value.armed
  {
    var p := d.pass.value;
    var e := p.todo[0];
    match e.body
    case Corrupt => d.(pass := None)
    case Empty => d.(stash := Delete(d.stash, e.id), pass := Some(p.(todo := p.todo[1..])))
    case Holds(r) =>
      if KeyOf(r) in p.failedKeys then
        d.(pass := Some(p.(todo := p.todo[1..],
                           report := p.report.(blocked := p.report.blocked + 1))))
      else
        var cache := Cached(p.cache, d.schema, r.table);
        if !cache[r.table] || !ColumnReady(d.schema, r) then
          d.(pass := Some(p.(todo := p.todo[1..], cache := cache,
                             report := p.report.(waiting := p.report.waiting + 1))))
        else
          d.(pass := Some(p.(cache := cache, armed := true)))
  }

  /** The candidate's own transaction: the row applies and leaves the stash, or it fails and
      bars its key for the rest of the pass. */
  function ReplayCommit(d: Device, applies: bool): Device
    requires d.pass.Some? && d.pass.value.todo != [] && d.pass.value.armed
    requires d.pass.value.todo[0].body.Holds?
  {
    var p := d.pass.value;
    var e := p.todo[0];
    var r := e.body.row;
    if applies then
      d.(applied := d.applied + [r], stash := Delete(d.stash, e.id),
         pass := Some(p.(todo := p.todo[1..], armed := false,
                         report := p.report.(replayed := p.report.replayed + 1))))
    else
      d.(pass := Some(p.(todo := p.todo[1..], armed := false,
                         failedKeys := p.failedKeys + {KeyOf(r)},
                         report := p.report.(failed := p.report.failed + 1))))
  }

  // ---- Runs -----------------------------------------------------------------------------------

  /** `MergeFails`: a ready row of the changeset failed, so its transaction rolled back.
      `Stop`: the pass ended, or the process died; either way its local state is gone. */
  datatype Step =
    | MergeCommits(rows: seq<ChangeRow>)
    | MergeFails
    | Convert(table: seq<byte>)
    | AddColumn(table: seq<byte>, column: seq<byte>)
    | Begin
    | Look
    | Commit(applies: bool)
    | Stop

  predicate Enabled(d: Device, step: Step) {
    match step
    case Begin => d.pass.None?
    case Look => d.pass.Some? && d.pass.value.todo != [] && !d.pass.value.armed
    case Commit(_) =>
      d.pass.Some? && d.pass.value.todo != [] && d.pass.value.armed && d.pass.value.todo[0].body.Holds?
    case _ => true
  }

  function Next(d: Device, step: Step): Device
    requires Enabled(d, step)
  {
    match step
    case MergeCommits(rows) => Merge(d, rows)
    case MergeFails => d
    case Convert(t) => d.(schema := d.schema.(crr := d.schema.crr + {t}))
    case AddColumn(t, c) => d.(schema := d.schema.(columns := d.schema.columns + {(t, c)}))
    case Begin => BeginPass(d)
    case Look => ReplayLook(d)
    case Commit(applies) => ReplayCommit(d, applies)
    case Stop => d.(pass := None)
  }

  predicate CanRun(d: Device, steps: seq<Step>)
    decreases |steps|
  {
    steps == [] || (Enabled(d, steps[0]) && CanRun(Next(d, steps[0]), steps[1..]))
  }

  function Run(d: Device, steps: seq<Step>): Device
    requires CanRun(d, steps)
    decreases |steps|
  {
    if steps == [] then d else Run(Next(d, steps[0]), steps[1..])
  }

  /** Every table that is a CRR here has every column a pulled row names: what is missing is
      missing as a whole table. */
  ghost predicate WholeTableGaps(d: Device) {
    forall r :: r in d.arrived && r.table in d.schema.crr ==> ColumnReady(d.schema, r)
  }

  ghost predicate WholeTableGapsThroughout(d: Device, steps: seq<Step>)
    requires CanRun(d, steps)
    decreases |steps|
  {
    WholeTableGaps(d) &&
    (steps == [] || WholeTableGapsThroughout(Next(d, steps[0]), steps[1..]))
  }

  /** No column appears while a pass is running. */
  predicate ColumnsFixedDuringPasses(d: Device, steps: seq<Step>)
    requires CanRun(d, steps)
    decreases |steps|
  {
    steps == [] ||
    ((steps[0].AddColumn? ==> d.pass.None?) &&
     ColumnsFixedDuringPasses(Next(d, steps[0]), steps[1..]))
  }

  // ---- The stash by key -----------------------------------------------------------------------

  function RowsOf(stash: seq<Entry>): seq<ChangeRow> {
    if stash == [] then []
    else (if stash[0].body.Holds? then [stash[0].body.row] else []) + RowsOf(stash[1..])
  }

  lemma {:induction false} RowsOfConcat(a: seq<Entry>, b: seq<Entry>)
    ensures RowsOf(a + b) == RowsOf(a) + RowsOf(b)
  {
    if a == [] {
      assert a + b == b;
    } else {
      assert (a + b)[1..] == a[1..] + b;
      RowsOfConcat(a[1..], b);
      Assoc(if a[0].body.Holds? then [a[0].body.row] else [], RowsOf(a[1..]), RowsOf(b));
    }
  }

  lemma RowsOfOne(e: Entry)
    ensures RowsOf([e]) == if e.body.Holds? then [e.body.row] else []
  {
    assert RowsOf([e]) == (if e.body.Holds? then [e.body.row] else []) + RowsOf([]);
  }

  lemma {:induction false} RowsOfMember(stash: seq<Entry>, e: Entry)
    requires e in stash && e.body.Holds?
    ensures e.body.row in RowsOf(stash)
  {
    if stash[0] != e {
      RowsOfMember(stash[1..], e);
    }
  }

  lemma {:induction false} MemberOfRows(stash: seq<Entry>, r: ChangeRow) returns (e: Entry)
    requires r in RowsOf(stash)
    ensures e in stash && e.body == Holds(r)
  {
    if stash[0].body == Holds(r) {
      e := stash[0];
    } else {
      e := MemberOfRows(stash[1..], r);
    }
  }

  ghost function Applied<K>(d: Device, group: ChangeRow -> K, k: K): seq<ChangeRow> { Of(d.applied, group, k) }
  ghost function Stashed<K>(d: Device, group: ChangeRow -> K, k: K): seq<ChangeRow> { Of(RowsOf(d.stash), group, k) }
  ghost function Arrived<K>(d: Device, group: ChangeRow -> K, k: K): seq<ChangeRow> { Of(d.arrived, group, k) }

  /** First-in first-out, without loss, as each group of rows sees it: what was applied, then what
      still waits, is what arrived. */
  ghost predicate FifoBy<K(!new)>(d: Device, group: ChangeRow -> K) {
    forall k: K :: Applied(d, group, k) + Stashed(d, group, k) == Arrived(d, group, k)
  }

  /** One column of one row. */
  type Cell = (Key, seq<byte>)

  function CellOf(r: ChangeRow): Cell { (KeyOf(r), r.cid) }

  /** Per-key first-in first-out. */
  ghost predicate Fifo(d: Device) { FifoBy(d, KeyOf) }

  /** No row is lost or duplicated, whatever the schema does. */
  ghost predicate Conserved(d: Device) {
    multiset(d.applied) + multiset(RowsOf(d.stash)) == multiset(d.arrived)
  }

  // ---- The invariant --------------------------------------------------------------------------

  ghost predicate IdsIncrease(stash: seq<Entry>, bound: nat) {
    && (forall i :: 0 <= i < |stash| ==> stash[i].id < bound)
    && (forall i, j :: 0 <= i < j < |stash| ==> stash[i].id < stash[j].id)
  }

  /** How many entries the pass has looked at and left in the stash. */
  function Kept(p: Pass): nat {
    p.report.waiting + p.report.failed + p.report.blocked
  }

  /** Why the pass left a row in the stash. */
  ghost predicate LeftForCause(schema: Schema, p: Pass, r: ChangeRow) {
    || KeyOf(r) in p.failedKeys
    || (r.table in p.cache && (p.cache[r.table] ==> !ColumnReady(schema, r)))
  }

  /** The pass will still come to a row of the key: no corrupt blob lies before it. */
  predicate Upcoming(todo: seq<Entry>, k: Key)
    decreases |todo|
  {
    && todo != [] && !todo[0].body.Corrupt?
    && ((todo[0].body.Holds? && KeyOf(todo[0].body.row) == k) || Upcoming(todo[1..], k))
  }

  /** A pass left its rows behind for a cause, as far as rows of their keys are still to come. */
  ghost predicate LeftInv(schema: Schema, stash: seq<Entry>, p: Pass)
    requires Kept(p) <= |stash|
  {
    forall i :: 0 <= i < Kept(p) && stash[i].body.Holds? ==>
      LeftForCause(schema, p, stash[i].body.row) || !Upcoming(p.todo, KeyOf(stash[i].body.row))
  }

  /** The entries kept so far, then those to come, are the front of the stash. */
  ghost predicate PassShape(schema: Schema, stash: seq<Entry>, p: Pass) {
    var kept := Kept(p);
    && kept + |p.todo| <= |stash|
    && stash[kept..kept + |p.todo|] == p.todo
    && (forall t :: t in p.cache && p.cache[t] ==> t in schema.crr)
    && (forall i :: 0 <= i < kept ==> stash[i].body.Holds?)
    && (p.armed ==>
          && p.todo != [] && p.todo[0].body.Holds?
          && var r := p.todo[0].body.row;
             KeyOf(r) !in p.failedKeys && r.table in p.cache && p.cache[r.table]
             && ColumnReady(schema, r))
  }

  ghost predicate Shaped(d: Device) {
    && IdsIncrease(d.stash, d.nextId)
    && Conserved(d)
    && (d.pass.Some? ==> PassShape(d.schema, d.stash, d.pass.value))
  }

  ghost predicate Inv(d: Device) {
    Shaped(d) && (d.pass.Some? ==> LeftInv(d.schema, d.stash, d.pass.value))
  }

  lemma {:induction false} DeleteAbsent(stash: seq<Entry>, id: nat)
    requires forall i :: 0 <= i < |stash| ==> stash[i].id != id
    ensures Delete(stash, id) == stash
  {
    if stash != [] {
      DeleteAbsent(stash[1..], id);
    }
  }

  lemma AppendRow(stash: seq<Entry>, bound: nat, r: ChangeRow)
    requires IdsIncrease(stash, bound)
    ensures IdsIncrease(stash + [Entry(bound, Holds(r))], bound + 1)
    ensures RowsOf(stash + [Entry(bound, Holds(r))]) == RowsOf(stash) + [r]
  {
    RowsOfConcat(stash, [Entry(bound, Holds(r))]);
    RowsOfOne(Entry(bound, Holds(r)));
  }

  ghost function AllRows(d: Device): multiset<ChangeRow> {
    multiset(d.applied) + multiset(RowsOf(d.stash))
  }

  /** The effect of a merge: it only appends, and keeps the ids in order. */
  lemma {:induction false} MergeRowsAppends(d: Device, barrier: set<Key>, rows: seq<ChangeRow>)
    requires IdsIncrease(d.stash, d.nextId)
    ensures var d' := MergeRows(d, barrier, rows);
            && IdsIncrease(d'.stash, d'.nextId) && d.stash <= d'.stash
            && d'.schema == d.schema && d'.pass == d.pass && d'.arrived == d.arrived
    decreases |rows|
  {
    if rows != [] {
      hide IdsIncrease, RowsOf;
      AppendRow(d.stash, d.nextId, rows[0]);
      MergeRowsAppends(MergeRow(d, barrier, rows[0]), barrier, rows[1..]);
    }
  }

  /** A merge loses nothing. */
  lemma {:induction false} MergeRowsConserve(d: Device, barrier: set<Key>, rows: seq<ChangeRow>)
    ensures AllRows(MergeRows(d, barrier, rows)) == AllRows(d) + multiset(rows)
    decreases |rows|
  {
    if rows != [] {
      MergeRowConserves(d, barrier, rows[0]);
      MergeRowsConserve(MergeRow(d, barrier, rows[0]), barrier, rows[1..]);
      assert rows == [rows[0]] + rows[1..];
    }
  }

  lemma MergeRowConserves(d: Device, barrier: set<Key>, r: ChangeRow)
    ensures AllRows(MergeRow(d, barrier, r)) == AllRows(d) + multiset([r])
  {
    var e := Entry(d.nextId, Holds(r));
    RowsOfConcat(d.stash, [e]);
    RowsOfOne(e);
  }

  lemma {:induction false} MergeRowsSort(d: Device, start: Device, rows: seq<ChangeRow>)
    requires d.schema == start.schema
    ensures var d' := MergeRows(d, ReadyStashedKeys(start.schema, start.stash), rows);
            && d'.applied == d.applied + Sorted(start, rows, false)
            && RowsOf(d'.stash) == RowsOf(d.stash) + Sorted(start, rows, true)
    decreases |rows|
  {
    if rows != [] {
      var barrier := ReadyStashedKeys(start.schema, start.stash);
      var r := rows[0];
      var d1 := MergeRow(d, barrier, r);
      assert Quarantined(d.schema, barrier, r) == HeldBack(start, r);
      hide Quarantined, HeldBack, ReadyStashedKeys, RowsOf;
      RowsOfConcat(d.stash, [Entry(d.nextId, Holds(r))]);
      RowsOfOne(Entry(d.nextId, Holds(r)));
      MergeRowsSort(d1, start, rows[1..]);
      Assoc(d.applied, if HeldBack(start, r) then [] else [r], Sorted(start, rows[1..], false));
      Assoc(RowsOf(d.stash), if HeldBack(start, r) then [r] else [], Sorted(start, rows[1..], true));
    }
  }

  /** What a merge does, exactly: in order, it applies the rows that are not held back and stashes those that
      are. */
  lemma MergeIsExact(d: Device, rows: seq<ChangeRow>)
    ensures var d' := Merge(d, rows);
            && d'.applied == d.applied + Sorted(d, rows, false)
            && RowsOf(d'.stash) == RowsOf(d.stash) + Sorted(d, rows, true)
            && d'.arrived == d.arrived + rows
  {
    hide ReadyStashedKeys, RowsOf, Sorted;
    MergeRowsSort(d, d, rows);
    MergeKeepsArrived(d, ReadyStashedKeys(d.schema, d.stash), rows);
  }

  lemma {:induction false} MergeKeepsArrived(d: Device, barrier: set<Key>, rows: seq<ChangeRow>)
    ensures MergeRows(d, barrier, rows).arrived == d.arrived
    decreases |rows|
  {
    if rows != [] {
      MergeKeepsArrived(MergeRow(d, barrier, rows[0]), barrier, rows[1..]);
    }
  }

  /** Every row that any merge of the run pulls is ready from the start. */
  predicate AllReady(schema: Schema, steps: seq<Step>) {
    forall s, r :: s in steps && s.MergeCommits? && r in s.rows ==> Ready(schema, r)
  }

  lemma {:induction false} NoneHeld(d: Device, rows: seq<ChangeRow>)
    requires d.stash == [] && forall r :: r in rows ==> Ready(d.schema, r)
    ensures Sorted(d, rows, false) == rows && Sorted(d, rows, true) == []
  {
    if rows != [] {
      NoneHeld(d, rows[1..]);
      assert rows == [rows[0]] + rows[1..];
    }
  }

  lemma NothingHolds(stash: seq<Entry>)
    requires RowsOf(stash) == [] && forall e :: e in stash ==> e.body.Holds?
    ensures stash == []
  {
  }

  /** What one step does on a device with nothing stashed. */
  lemma StepAppliesAll(d: Device, step: Step)
    requires Enabled(d, step) && d.stash == [] && d.applied == d.arrived
    requires d.pass.Some? ==> d.pass.value.todo == []
    requires step.MergeCommits? ==> forall r :: r in step.rows ==> Ready(d.schema, r)
    ensures var d' := Next(d, step);
            && d'.stash == [] && d'.applied == d'.arrived && (d'.pass.Some? ==> d'.pass.value.todo == [])
            && d.schema.crr <= d'.schema.crr && d.schema.columns <= d'.schema.columns
  {
    hide MergeRows, ReadyStashedKeys, Sorted, HeldBack;
    if step.MergeCommits? {
      var barrier := ReadyStashedKeys(d.schema, d.stash);
      MergeIsExact(d, step.rows);
      NoneHeld(d, step.rows);
      MergeRowsAppends(d, barrier, step.rows);
      forall e | e in MergeRows(d, barrier, step.rows).stash ensures e.body.Holds? {
        MergeStashes(d, barrier, step.rows, e);
      }
      NothingHolds(MergeRows(d, barrier, step.rows).stash);
    }
  }

  lemma {:induction false} RunAppliesAll(d: Device, schema: Schema, steps: seq<Step>)
    requires CanRun(d, steps) && AllReady(schema, steps)
    requires schema.crr <= d.schema.crr && schema.columns <= d.schema.columns
    requires d.stash == [] && d.applied == d.arrived && (d.pass.Some? ==> d.pass.value.todo == [])
    ensures var d' := Run(d, steps); d'.stash == [] && d'.applied == d'.arrived
    decreases |steps|
  {
    if steps != [] {
      if steps[0].MergeCommits? {
        forall r | r in steps[0].rows ensures Ready(d.schema, r) {
          assert Ready(schema, r);
        }
      }
      hide Next, Enabled;
      StepAppliesAll(d, steps[0]);
      RunAppliesAll(Next(d, steps[0]), schema, steps[1..]);
    }
  }

  /** The device it is all compared with: one that has every table and column from the start never
      stashes a row, and applies every row as it arrives. */
  lemma CompleteDeviceAppliesAll(schema: Schema, steps: seq<Step>)
    requires CanRun(Init(schema), steps) && AllReady(schema, steps)
    ensures var d := Run(Init(schema), steps); d.stash == [] && d.applied == d.arrived
  {
    RunAppliesAll(Init(schema), schema, steps);
  }

  /** What a merge does for one group when its rows in the changeset all go the same way. */
  lemma {:induction false} MergeRowsBy<K>(
    d: Device, barrier: set<Key>, rows: seq<ChangeRow>, group: ChangeRow -> K, k: K, wait: bool)
    requires forall r :: r in rows && group(r) == k ==> Quarantined(d.schema, barrier, r) == wait
    ensures var d' := MergeRows(d, barrier, rows);
            if wait then Applied(d', group, k) == Applied(d, group, k)
                         && Stashed(d', group, k) == Stashed(d, group, k) + Of(rows, group, k)
            else Applied(d', group, k) == Applied(d, group, k) + Of(rows, group, k)
                 && Stashed(d', group, k) == Stashed(d, group, k)
    decreases |rows|
  {
    hide Quarantined, Of, RowsOf;
    OfCons(rows, group, k);
    if rows != [] {
      var r := rows[0];
      var d1 := MergeRow(d, barrier, r);
      MergeRowBy(d, barrier, r, group, k);
      MergeRowsBy(d1, barrier, rows[1..], group, k, wait);
      var here, later := if group(r) == k then [r] else [], Of(rows[1..], group, k);
      Assoc(Applied(d, group, k), here, later);
      Assoc(Stashed(d, group, k), here, later);
    }
  }

  lemma MergeRowBy<K>(d: Device, barrier: set<Key>, r: ChangeRow, group: ChangeRow -> K, k: K)
    ensures var d' := MergeRow(d, barrier, r);
            var here := if group(r) == k then [r] else [];
            if Quarantined(d.schema, barrier, r) then
              Applied(d', group, k) == Applied(d, group, k) && Stashed(d', group, k) == Stashed(d, group, k) + here
            else
              Applied(d', group, k) == Applied(d, group, k) + here && Stashed(d', group, k) == Stashed(d, group, k)
  {
    var e := Entry(d.nextId, Holds(r));
    RowsOfConcat(d.stash, [e]);
    RowsOfOne(e);
    OfConcat(RowsOf(d.stash), [r], group, k);
    OfConcat(d.applied, [r], group, k);
    OfOne(r, group, k);
  }

  lemma MergeKeepsInv(d: Device, rows: seq<ChangeRow>)
    requires Inv(d)
    ensures Inv(Merge(d, rows))
  {
    MergeRowsAppends(d, ReadyStashedKeys(d.schema, d.stash), rows);
    MergeRowsConserve(d, ReadyStashedKeys(d.schema, d.stash), rows);
  }

  lemma {:induction false} DeleteMiddle(before: seq<Entry>, e: Entry, after: seq<Entry>)
    requires forall x :: x in before || x in after ==> x.id != e.id
    ensures Delete(before + [e] + after, e.id) == before + after
  {
    var all := before + [e] + after;
    if before == [] {
      assert all[0] == e && all[1..] == after;
      DeleteAbsent(after, e.id);
    } else {
      var rest := before[1..];
      assert all[0] == before[0] && all[1..] == rest + [e] + after;
      DeleteMiddle(rest, e, after);
      assert before + after == [before[0]] + (rest + after);
    }
  }

  lemma RowsAround(before: seq<Entry>, e: Entry, after: seq<Entry>)
    ensures RowsOf(before + [e] + after) == RowsOf(before) + RowsOf([e]) + RowsOf(after)
    ensures RowsOf(before + after) == RowsOf(before) + RowsOf(after)
  {
    hide RowsOf;
    RowsOfConcat(before, after);
    RowsOfConcat(before + [e], after);
    RowsOfConcat(before, [e]);
  }

  lemma SplitAt(stash: seq<Entry>, i: nat)
    requires i < |stash|
    ensures stash == stash[..i] + [stash[i]] + stash[i + 1..]
  {
  }

  lemma OtherIds(before: seq<Entry>, e: Entry, after: seq<Entry>, bound: nat)
    requires IdsIncrease(before + [e] + after, bound)
    ensures forall x :: x in before || x in after ==> x.id != e.id
  {
    var all := before + [e] + after;
    assert all[|before|] == e;
    forall x | x in before || x in after
      ensures x.id != e.id
    {
      if x in before {
        var j :| 0 <= j < |before| && before[j] == x;
        assert all[j] == x;
      } else {
        var j :| 0 <= j < |after| && after[j] == x;
        assert all[|before| + 1 + j] == x;
      }
    }
  }

  /** Deleting the `i`-th entry, in parts. */
  lemma RemoveOne(stash: seq<Entry>, bound: nat, i: nat)
    requires IdsIncrease(stash, bound) && i < |stash|
    ensures var before, after := stash[..i], stash[i + 1..];
            && stash == before + [stash[i]] + after
            && Delete(stash, stash[i].id) == before + after
            && IdsIncrease(before + after, bound)
  {
    hide Delete, IdsIncrease;
    var before, e, after := stash[..i], stash[i], stash[i + 1..];
    SplitAt(stash, i);
    OtherIds(before, e, after, bound);
    DeleteMiddle(before, e, after);
    IdsAround(before, e, after, bound);
  }

  lemma IdsAround(before: seq<Entry>, e: Entry, after: seq<Entry>, bound: nat)
    requires IdsIncrease(before + [e] + after, bound)
    ensures IdsIncrease(before + after, bound)
  {
    var all, less := before + [e] + after, before + after;
    assert forall j :: 0 <= j < |less| ==> less[j] == all[if j < |before| then j else j + 1];
  }

  /** Taking the head of `todo` out of the stash leaves the rest of the pass in place. */
  lemma TakeHead(d: Device, p': Pass)
    requires Shaped(d) && d.pass.Some? && d.pass.value.todo != []
    requires var p := d.pass.value;
             && p'.todo == p.todo[1..] && p'.cache == p.cache && p'.failedKeys == p.failedKeys
             && Kept(p') == Kept(p) && !p'.armed
    ensures var s := Delete(d.stash, d.pass.value.todo[0].id);
            && IdsIncrease(s, d.nextId) && PassShape(d.schema, s, p')
            && (forall i :: 0 <= i < Kept(p') ==> s[i] == d.stash[i])
            && multiset(RowsOf(d.stash)) ==
               multiset(RowsOf(s)) + multiset(RowsOf([d.pass.value.todo[0]]))
  {
    hide RowsOf, Delete, IdsIncrease;
    var p := d.pass.value;
    var kept := Kept(p);
    assert d.stash[kept] == p.todo[0];
    RemoveOne(d.stash, d.nextId, kept);
    RowsAround(d.stash[..kept], p.todo[0], d.stash[kept + 1..]);
    var s := Delete(d.stash, p.todo[0].id);
    assert forall i :: 0 <= i < kept ==> s[i] == d.stash[i];
    assert s[kept..kept + |p'.todo|] == p'.todo;
  }

  /** Leaving the head of `todo` in the stash keeps the pass in place too. */
  lemma KeepHead(d: Device, p': Pass)
    requires Shaped(d) && d.pass.Some? && d.pass.value.todo != [] && d.pass.value.todo[0].body.Holds?
    requires var p := d.pass.value;
             && p'.todo == p.todo[1..] && Kept(p') == Kept(p) + 1 && !p'.armed
             && (forall t :: t in p'.cache && p'.cache[t] ==> t in d.schema.crr)
    ensures PassShape(d.schema, d.stash, p')
  {
    var p := d.pass.value;
    var kept := Kept(p);
    assert d.stash[kept] == p.todo[0];
    assert d.stash[kept + 1..kept + |p.todo|] == p.todo[1..];
  }

  /** The causes stand when the pass moves on: what is kept stays, what it knows only grows. */
  lemma CausesStand(schema: Schema, stash: seq<Entry>, p: Pass, stash': seq<Entry>, p': Pass)
    requires Kept(p) <= |stash| && Kept(p') <= |stash'| && LeftInv(schema, stash, p)
    requires p.todo != [] && !p.todo[0].body.Corrupt?
    requires p'.todo == p.todo || p'.todo == p.todo[1..]
    requires p.failedKeys <= p'.failedKeys
    requires forall t :: t in p.cache ==> t in p'.cache && p'.cache[t] == p.cache[t]
    requires Kept(p) <= Kept(p') <= Kept(p) + 1 && forall i :: 0 <= i < Kept(p) ==> stash'[i] == stash[i]
    requires Kept(p') == Kept(p) + 1 && stash'[Kept(p)].body.Holds? ==>
               LeftForCause(schema, p', stash'[Kept(p)].body.row)
    ensures LeftInv(schema, stash', p')
  {
    hide LeftForCause;
    forall i | 0 <= i < Kept(p') && stash'[i].body.Holds?
      ensures LeftForCause(schema, p', stash'[i].body.row) || !Upcoming(p'.todo, KeyOf(stash'[i].body.row))
    {
      if i < Kept(p) {
        CauseStands(schema, p, p', stash[i].body.row);
        ComesCloser(p.todo, KeyOf(stash[i].body.row));
      }
    }
  }

  lemma CauseStands(schema: Schema, p: Pass, p': Pass, r: ChangeRow)
    requires p.failedKeys <= p'.failedKeys
    requires forall t :: t in p.cache ==> t in p'.cache && p'.cache[t] == p.cache[t]
    ensures LeftForCause(schema, p, r) ==> LeftForCause(schema, p', r)
  {
  }

  lemma ComesCloser(todo: seq<Entry>, k: Key)
    requires todo != [] && !todo[0].body.Corrupt?
    ensures Upcoming(todo[1..], k) ==> Upcoming(todo, k)
  {
  }

  lemma LookKeepsShape(d: Device)
    requires Shaped(d) && Enabled(d, Look)
    ensures Shaped(ReplayLook(d))
  {
    hide RowsOf, Delete, IdsIncrease;
    var p, d' := d.pass.value, ReplayLook(d);
    match p.todo[0].body
    case Corrupt =>
    case Empty => TakeHead(d, d'.pass.value); RowsOfOne(p.todo[0]);
    case Holds(r) =>
      if !d'.pass.value.armed {
        KeepHead(d, d'.pass.value);
      }
  }

  lemma LookKeepsInv(d: Device)
    requires Inv(d) && Enabled(d, Look)
    ensures Inv(ReplayLook(d))
  {
    hide RowsOf, Delete, IdsIncrease, LeftInv, Conserved;
    LookKeepsShape(d);
    var p, d' := d.pass.value, ReplayLook(d);
    match p.todo[0].body
    case Corrupt =>
    case Empty =>
      TakeHead(d, d'.pass.value);
      CausesStand(d.schema, d.stash, p, d'.stash, d'.pass.value);
    case Holds(r) =>
      assert d.stash[Kept(p)] == p.todo[0];
      CausesStand(d.schema, d.stash, p, d'.stash, d'.pass.value);
  }

  lemma CommitKeepsShape(d: Device, applies: bool)
    requires Shaped(d) && Enabled(d, Commit(applies))
    ensures Shaped(ReplayCommit(d, applies))
  {
    hide RowsOf, Delete, IdsIncrease;
    var p, d' := d.pass.value, ReplayCommit(d, applies);
    if applies {
      TakeHead(d, d'.pass.value);
      RowsOfOne(p.todo[0]);
    } else {
      KeepHead(d, d'.pass.value);
    }
  }

  lemma CommitKeepsInv(d: Device, applies: bool)
    requires Inv(d) && Enabled(d, Commit(applies))
    ensures Inv(ReplayCommit(d, applies))
  {
    hide RowsOf, Delete, IdsIncrease, LeftInv, Conserved;
    CommitKeepsShape(d, applies);
    var p, d' := d.pass.value, ReplayCommit(d, applies);
    if applies {
      TakeHead(d, d'.pass.value);
    } else {
      assert d.stash[Kept(p)] == p.todo[0];
    }
    CausesStand(d.schema, d.stash, p, d'.stash, d'.pass.value);
  }

  lemma MergeKeepsShape(d: Device, rows: seq<ChangeRow>)
    requires Shaped(d)
    ensures Shaped(Merge(d, rows))
  {
    MergeRowsAppends(d, ReadyStashedKeys(d.schema, d.stash), rows);
    MergeRowsConserve(d, ReadyStashedKeys(d.schema, d.stash), rows);
  }

  /** Whatever the schema does, every step keeps the stash in order and loses and duplicates no row. */
  lemma StepKeepsShape(d: Device, step: Step)
    requires Shaped(d) && Enabled(d, step)
    ensures Shaped(Next(d, step))
  {
    hide IdsIncrease, RowsOf, MergeRows;
    match step
    case MergeCommits(rows) => MergeKeepsShape(d, rows);
    case Look => LookKeepsShape(d);
    case Commit(applies) => CommitKeepsShape(d, applies);
    case _ =>
  }

  lemma {:induction false} RunKeepsShape(d: Device, steps: seq<Step>)
    requires CanRun(d, steps) && Shaped(d)
    ensures Shaped(Run(d, steps))
    decreases |steps|
  {
    hide Shaped;
    if steps != [] {
      StepKeepsShape(d, steps[0]);
      RunKeepsShape(Next(d, steps[0]), steps[1..]);
    }
  }

  /** Over every run, with any gaps, at any moment: the rows applied and the rows stashed are together
      exactly the rows of committed merges. */
  lemma NoRowIsLost(schema: Schema, steps: seq<Step>)
    requires CanRun(Init(schema), steps)
    ensures Conserved(Run(Init(schema), steps))
  {
    InitInv(schema);
    RunKeepsShape(Init(schema), steps);
  }

  /** The addition of a column that does harm: under a pass that has left a row behind for want of
      just this column, and that will still come to a row of the same key. */
  ghost predicate Harmful(d: Device, step: Step) {
    && step.AddColumn? && d.pass.Some? && Kept(d.pass.value) <= |d.stash|
    && exists i :: 0 <= i < Kept(d.pass.value) && Awaits(d, i, step.table, step.column)
  }

  ghost predicate Awaits(d: Device, i: nat, t: seq<byte>, c: seq<byte>)
    requires d.pass.Some? && i < |d.stash|
  {
    var p := d.pass.value;
    && d.stash[i].body.Holds?
    && var r := d.stash[i].body.row;
       && r.table == t && r.cid == c && !ColumnReady(d.schema, r)
       && KeyOf(r) !in p.failedKeys && t in p.cache && p.cache[t]
       && Upcoming(p.todo, KeyOf(r))
  }

  /** Every step but the harmful addition of a column keeps the invariant. */
  lemma StepKeepsInv(d: Device, step: Step)
    requires Inv(d) && Enabled(d, step) && !Harmful(d, step)
    ensures Inv(Next(d, step))
  {
    hide IdsIncrease, RowsOf, MergeRows, Harmful, Upcoming;
    match step
    case MergeCommits(rows) => MergeKeepsInv(d, rows);
    case Look => LookKeepsInv(d);
    case Commit(applies) => CommitKeepsInv(d, applies);
    case AddColumn(t, c) => ColumnKeepsInv(d, t, c);
    case Convert(_) =>
    case Begin =>
    case MergeFails =>
    case Stop =>
  }

  lemma ColumnKeepsInv(d: Device, t: seq<byte>, c: seq<byte>)
    requires Inv(d) && !Harmful(d, AddColumn(t, c))
    ensures Inv(Next(d, AddColumn(t, c)))
  {
    hide IdsIncrease, RowsOf, Upcoming;
    if d.pass.Some? {
      var p := d.pass.value;
      forall i | 0 <= i < Kept(p) && d.stash[i].body.Holds?
        ensures LeftForCause(Next(d, AddColumn(t, c)).schema, p, d.stash[i].body.row)
                || !Upcoming(p.todo, KeyOf(d.stash[i].body.row))
      {
        assert !Awaits(d, i, t, c);
      }
    }
  }

  /** Under whole-table gaps no addition does harm. */
  lemma WholeTableGapsDoNoHarm(d: Device, step: Step)
    requires Inv(d) && WholeTableGaps(d)
    ensures !Harmful(d, step)
  {
    hide IdsIncrease, RowsOf, Upcoming;
    if Harmful(d, step) {
      var i :| 0 <= i < Kept(d.pass.value) && Awaits(d, i, step.table, step.column);
      StashedArrived(d, d.stash[i]);
    }
  }

  lemma StashedArrived(d: Device, e: Entry)
    requires Conserved(d) && e in d.stash && e.body.Holds?
    ensures e.body.row in d.arrived
  {
    RowsOfMember(d.stash, e);
    assert e.body.row in multiset(RowsOf(d.stash));
    assert e.body.row in multiset(d.arrived);
  }

  // ---- Order by groups of rows ------------------------------------------------------------------

  /** A merge keeps the order of a group whose rows all go the same way, if none of it is stashed
      when they are applied. */
  lemma MergeKeepsOrder<K>(d: Device, rows: seq<ChangeRow>, group: ChangeRow -> K, k: K, wait: bool)
    requires IdsIncrease(d.stash, d.nextId)
    requires Applied(d, group, k) + Stashed(d, group, k) == Arrived(d, group, k)
    requires forall r :: r in rows && group(r) == k ==>
               Quarantined(d.schema, ReadyStashedKeys(d.schema, d.stash), r) == wait
    requires !wait ==> Stashed(d, group, k) == []
    ensures var d' := Merge(d, rows); Applied(d', group, k) + Stashed(d', group, k) == Arrived(d', group, k)
  {
    hide MergeRows, RowsOf, Of, IdsIncrease, Quarantined, ReadyStashedKeys;
    var barrier := ReadyStashedKeys(d.schema, d.stash);
    MergeRowsAppends(d, barrier, rows);
    OfConcat(d.arrived, rows, group, k);
    MergeRowsBy(d, barrier, rows, group, k, wait);
    var added := Of(rows, group, k);
    if wait {
      Assoc(Applied(d, group, k), Stashed(d, group, k), added);
    } else {
      assert Applied(d, group, k) + [] == Applied(d, group, k);
      assert (Applied(d, group, k) + added) + [] == Applied(d, group, k) + added;
    }
  }

  /** Applying the armed row keeps every group's order if no row of its group is stashed before it. */
  lemma CommitKeepsOrder<K(!new)>(d: Device, group: ChangeRow -> K)
    requires Shaped(d) && FifoBy(d, group) && Enabled(d, Commit(true))
    requires forall x :: x in RowsOf(d.stash[..Kept(d.pass.value)]) ==> group(x) != group(d.pass.value.todo[0].body.row)
    ensures FifoBy(ReplayCommit(d, true), group)
  {
    hide RowsOf, Of, Delete, IdsIncrease;
    var p := d.pass.value;
    var i := Kept(p);
    var r := p.todo[0].body.row;
    var before, after := RowsOf(d.stash[..i]), RowsOf(d.stash[i + 1..]);
    var d' := ReplayCommit(d, true);
    assert RowsOf(d.stash) == before + [r] + after && RowsOf(d'.stash) == before + after by {
      assert d.stash[i] == p.todo[0];
      RemoveOne(d.stash, d.nextId, i);
      RowsAround(d.stash[..i], p.todo[0], d.stash[i + 1..]);
      RowsOfOne(d.stash[i]);
    }
    forall k: K
      ensures Applied(d', group, k) + Stashed(d', group, k) == Arrived(d', group, k)
    {
      DroppedFirst(before, r, after, group, k);
      OfConcat(d.applied, [r], group, k);
      OfOne(r, group, k);
      Assoc(Applied(d, group, k), if group(r) == k then [r] else [], Of(before + after, group, k));
      assert Applied(d, group, k) + Stashed(d, group, k) == Arrived(d, group, k);
    }
  }

  lemma LookKeepsOrder<K(!new)>(d: Device, group: ChangeRow -> K)
    requires Shaped(d) && FifoBy(d, group) && Enabled(d, Look)
    ensures FifoBy(ReplayLook(d), group)
  {
    hide RowsOf, Of, Delete, IdsIncrease;
    var p := d.pass.value;
    var d' := ReplayLook(d);
    if p.todo[0].body.Empty? {
      assert d.stash[Kept(p)] == p.todo[0];
      RemoveOne(d.stash, d.nextId, Kept(p));
      RowsAround(d.stash[..Kept(p)], p.todo[0], d.stash[Kept(p) + 1..]);
      RowsOfOne(p.todo[0]);
      assert RowsOf(d'.stash) == RowsOf(d.stash);
    }
    SameRowsSameOrder(d, d', group);
  }

  lemma SameRowsSameOrder<K(!new)>(d: Device, d': Device, group: ChangeRow -> K)
    requires FifoBy(d, group)
    requires d'.applied == d.applied && RowsOf(d'.stash) == RowsOf(d.stash) && d'.arrived == d.arrived
    ensures FifoBy(d', group)
  {
    forall k: K
      ensures Applied(d', group, k) + Stashed(d', group, k) == Arrived(d', group, k)
    {
      assert Applied(d, group, k) + Stashed(d, group, k) == Arrived(d, group, k);
    }
  }

  lemma InitOrder<K(!new)>(schema: Schema, group: ChangeRow -> K)
    ensures FifoBy(Init(schema), group)
  {
    var d := Init(schema);
    forall k: K
      ensures Applied(d, group, k) + Stashed(d, group, k) == Arrived(d, group, k)
    {
    }
  }

  /** Once the stash has drained and every group saw its rows in order, the order does not matter. */
  lemma DrainedConverges<S(!new), K(!new)>(d: Device, group: ChangeRow -> K, apply: (S, ChangeRow) -> S, db: S)
    requires FifoBy(d, group) && KeysCommute(apply, group) && RowsOf(d.stash) == []
    ensures Fold(apply, db, d.applied) == Fold(apply, db, d.arrived)
  {
    forall k: K
      ensures Of(d.applied, group, k) == Of(d.arrived, group, k)
    {
      assert Applied(d, group, k) + Stashed(d, group, k) == Arrived(d, group, k);
      assert Stashed(d, group, k) == [];
      assert Applied(d, group, k) + [] == Applied(d, group, k);
    }
    SameByKeyThenSameFold(apply, group, db, d.applied, d.arrived);
  }

  // ---- Whole-table gaps: per-key order and convergence ------------------------------------------

  lemma MergeKeepsFifo(d: Device, rows: seq<ChangeRow>)
    requires Inv(d) && Fifo(d) && WholeTableGaps(Merge(d, rows))
    ensures Fifo(Merge(d, rows))
  {
    hide MergeRows, RowsOf, Of, IdsIncrease, PassShape, LeftInv;
    var barrier := ReadyStashedKeys(d.schema, d.stash);
    var d' := Merge(d, rows);
    MergeRowsAppends(d, barrier, rows);
    forall k: Key
      ensures Applied(d', KeyOf, k) + Stashed(d', KeyOf, k) == Arrived(d', KeyOf, k)
    {
      var wait := k in barrier || k.0 !in d.schema.crr;
      forall r | r in rows && KeyOf(r) == k
        ensures Quarantined(d.schema, barrier, r) == wait
      {
        assert r in d'.arrived;
      }
      if !wait {
        NothingStashed(d, k);
      }
      MergeKeepsOrder(d, rows, KeyOf, k, wait);
    }
  }

  /** Under whole-table gaps a key that is no barrier, of a table that is a CRR, has nothing
      stashed at all. */
  lemma NothingStashed(d: Device, k: Key)
    requires Inv(d) && WholeTableGaps(d)
    requires k !in ReadyStashedKeys(d.schema, d.stash) && k.0 in d.schema.crr
    ensures Stashed(d, KeyOf, k) == []
  {
    forall r | r in RowsOf(d.stash)
      ensures KeyOf(r) != k
    {
      var e := MemberOfRows(d.stash, r);
      StashedArrived(d, e);
    }
    OfNone(RowsOf(d.stash), KeyOf, k);
  }

  /** Under whole-table gaps, no row of an armed row's key is stashed before it. */
  lemma NoEarlierRow(d: Device)
    requires Inv(d) && WholeTableGaps(d) && d.pass.Some? && d.pass.value.armed
    ensures forall x :: x in RowsOf(d.stash[..Kept(d.pass.value)]) ==>
              KeyOf(x) != KeyOf(d.pass.value.todo[0].body.row)
  {
    var i := Kept(d.pass.value);
    forall x | x in RowsOf(d.stash[..i])
      ensures KeyOf(x) != KeyOf(d.pass.value.todo[0].body.row)
    {
      var e := MemberOfRows(d.stash[..i], x);
      var j :| 0 <= j < i && d.stash[j] == e;
      StashedArrived(d, e);
      assert LeftForCause(d.schema, d.pass.value, x) || !Upcoming(d.pass.value.todo, KeyOf(x));
    }
  }

  lemma StepKeepsFifo(d: Device, step: Step)
    requires Inv(d) && Fifo(d) && Enabled(d, step)
    requires WholeTableGaps(d) && WholeTableGaps(Next(d, step))
    ensures Fifo(Next(d, step))
  {
    var d' := Next(d, step);
    match step
    case MergeCommits(rows) => MergeKeepsFifo(d, rows);
    case Look => LookKeepsOrder(d, KeyOf);
    case Commit(applies) =>
      if applies {
        NoEarlierRow(d);
        CommitKeepsOrder(d, KeyOf);
      } else {
        SameRowsSameOrder(d, d', KeyOf);
      }
    case _ => SameRowsSameOrder(d, d', KeyOf);
  }

  lemma {:induction false} RunKeepsFifo(d: Device, steps: seq<Step>)
    requires CanRun(d, steps) && WholeTableGapsThroughout(d, steps)
    requires Inv(d) && Fifo(d)
    ensures Inv(Run(d, steps)) && Fifo(Run(d, steps))
    decreases |steps|
  {
    if steps != [] {
      WholeTableGapsDoNoHarm(d, steps[0]);
      StepKeepsInv(d, steps[0]);
      StepKeepsFifo(d, steps[0]);
      RunKeepsFifo(Next(d, steps[0]), steps[1..]);
    }
  }

  lemma InitInv(schema: Schema)
    ensures Inv(Init(schema)) && Fifo(Init(schema)) && WholeTableGaps(Init(schema))
  {
    InitOrder(schema, KeyOf);
  }

  /** With whole-table gaps only, in every reachable state and for every key, the rows applied so
      far followed by the rows still stashed are the rows of the committed merges in arrival
      order, whatever interleaves with the transactions of a replay pass. */
  lemma PerKeyFifo(schema: Schema, steps: seq<Step>)
    requires CanRun(Init(schema), steps) && WholeTableGapsThroughout(Init(schema), steps)
    ensures Fifo(Run(Init(schema), steps))
  {
    InitInv(schema);
    RunKeepsFifo(Init(schema), steps);
  }

  /** With whole-table gaps only, once the stash has drained the device is in the state of a
      device that could apply every row as it arrived, if only applies to different keys
      commute. */
  lemma Converges<S(!new)>(schema: Schema, steps: seq<Step>, apply: (S, ChangeRow) -> S, db: S)
    requires CanRun(Init(schema), steps) && WholeTableGapsThroughout(Init(schema), steps)
    requires KeysCommute(apply, KeyOf)
    requires RowsOf(Run(Init(schema), steps).stash) == []
    ensures var d := Run(Init(schema), steps);
            Fold(apply, db, d.applied) == Fold(apply, db, d.arrived)
  {
    PerKeyFifo(schema, steps);
    DrainedConverges(Run(Init(schema), steps), KeyOf, apply, db);
  }

  // ---- Column gaps: what may overtake what ------------------------------------------------------

  /** The step applies no row past an earlier stashed row of its key that is ready here. */
  ghost predicate OvertakesOnlyUnready(d: Device, step: Step)
    requires Enabled(d, step)
  {
    match step
    case MergeCommits(rows) =>
      var barrier := ReadyStashedKeys(d.schema, d.stash);
      forall j, e ::
        0 <= j < |rows| && !Quarantined(d.schema, barrier, rows[j])
        && e in MergeRows(d, barrier, rows[..j]).stash
        && e.body.Holds? && KeyOf(e.body.row) == KeyOf(rows[j])
        ==> !Ready(d.schema, e.body.row)
    case Commit(true) =>
      forall i, j ::
        0 <= i < j < |d.stash| && d.stash[j] == d.pass.value.todo[0]
        && d.stash[i].body.Holds? && KeyOf(d.stash[i].body.row) == KeyOf(d.stash[j].body.row)
        ==> !Ready(d.schema, d.stash[i].body.row)
    case _ => true
  }

  ghost predicate NeverOvertakesReady(d: Device, steps: seq<Step>)
    requires CanRun(d, steps)
    decreases |steps|
  {
    steps == [] ||
    (OvertakesOnlyUnready(d, steps[0]) && NeverOvertakesReady(Next(d, steps[0]), steps[1..]))
  }

  /** Every row a merge stashes was quarantined, and rows already stashed stay. */
  lemma {:induction false} MergeStashes(d: Device, barrier: set<Key>, rows: seq<ChangeRow>, e: Entry)
    requires e in MergeRows(d, barrier, rows).stash
    ensures e in d.stash || (e.body.Holds? && Quarantined(d.schema, barrier, e.body.row))
    decreases |rows|
  {
    if rows != [] {
      MergeStashes(MergeRow(d, barrier, rows[0]), barrier, rows[1..], e);
    }
  }

  lemma StepOvertakesOnlyUnready(d: Device, step: Step)
    requires Inv(d) && Enabled(d, step)
    ensures OvertakesOnlyUnready(d, step)
  {
    match step
    case MergeCommits(rows) =>
      var barrier := ReadyStashedKeys(d.schema, d.stash);
      forall j, e |
        0 <= j < |rows| && !Quarantined(d.schema, barrier, rows[j])
        && e in MergeRows(d, barrier, rows[..j]).stash
        && e.body.Holds? && KeyOf(e.body.row) == KeyOf(rows[j])
        ensures !Ready(d.schema, e.body.row)
      {
        MergeStashes(d, barrier, rows[..j], e);
      }
    case Commit(applies) =>
      var p := d.pass.value;
      assert d.stash[Kept(p)] == p.todo[0];
      forall i, j |
        0 <= i < j < |d.stash| && d.stash[j] == p.todo[0]
        && d.stash[i].body.Holds? && KeyOf(d.stash[i].body.row) == KeyOf(d.stash[j].body.row)
        ensures !Ready(d.schema, d.stash[i].body.row)
      {
        assert d.stash[j].id == d.stash[Kept(p)].id;
        assert j == Kept(p);
        assert LeftForCause(d.schema, p, d.stash[i].body.row) || !Upcoming(p.todo, KeyOf(d.stash[i].body.row));
      }
    case _ =>
  }

  /** No addition of a column on the way does harm. */
  ghost predicate ColumnsDoNoHarm(d: Device, steps: seq<Step>)
    requires CanRun(d, steps)
    decreases |steps|
  {
    steps == [] || (!Harmful(d, steps[0]) && ColumnsDoNoHarm(Next(d, steps[0]), steps[1..]))
  }

  lemma {:induction false} RunNeverOvertakes(d: Device, steps: seq<Step>)
    requires CanRun(d, steps) && ColumnsDoNoHarm(d, steps) && Inv(d)
    ensures NeverOvertakesReady(d, steps) && Inv(Run(d, steps))
    decreases |steps|
  {
    if steps != [] {
      StepOvertakesOnlyUnready(d, steps[0]);
      StepKeepsInv(d, steps[0]);
      RunNeverOvertakes(Next(d, steps[0]), steps[1..]);
    }
  }

  /** With any gaps, as long as no column that appears does harm: no run ever applies a row past an
      earlier stashed row of its key that was ready. */
  lemma HarmlessColumnsNeverOvertake(schema: Schema, steps: seq<Step>)
    requires CanRun(Init(schema), steps) && ColumnsDoNoHarm(Init(schema), steps)
    ensures NeverOvertakesReady(Init(schema), steps)
  {
    InitInv(schema);
    RunNeverOvertakes(Init(schema), steps);
  }

  lemma {:induction false} FixedColumnsDoNoHarm(d: Device, steps: seq<Step>)
    requires CanRun(d, steps) && ColumnsFixedDuringPasses(d, steps)
    ensures ColumnsDoNoHarm(d, steps)
    decreases |steps|
  {
    if steps != [] {
      FixedColumnsDoNoHarm(Next(d, steps[0]), steps[1..]);
    }
  }

  /** In particular as long as no column appears under a running pass. */
  lemma ColumnGapsOvertakeOnlyUnready(schema: Schema, steps: seq<Step>)
    requires CanRun(Init(schema), steps) && ColumnsFixedDuringPasses(Init(schema), steps)
    ensures NeverOvertakesReady(Init(schema), steps)
    ensures Conserved(Run(Init(schema), steps))
  {
    NoRowIsLost(schema, steps);
    FixedColumnsDoNoHarm(Init(schema), steps);
    HarmlessColumnsNeverOvertake(schema, steps);
  }

  lemma Unfold(d: Device, steps: seq<Step>)
    requires steps != [] && Enabled(d, steps[0]) && CanRun(Next(d, steps[0]), steps[1..])
    ensures CanRun(d, steps)
    ensures NeverOvertakesReady(d, steps) <==>
            OvertakesOnlyUnready(d, steps[0]) && NeverOvertakesReady(Next(d, steps[0]), steps[1..])
  {
  }

  /** The pass has left the `i`-th entry behind, it has become ready since, and the pass will still
      come to a row of its key. */
  ghost predicate Exposed(d: Device, i: nat, k: Key) {
    && Shaped(d) && d.pass.Some? && i < Kept(d.pass.value) && Kept(d.pass.value) <= |d.stash|
    && d.stash[i].body.Holds? && KeyOf(d.stash[i].body.row) == k && Ready(d.schema, d.stash[i].body.row)
    && k !in d.pass.value.failedKeys && k.0 in d.pass.value.cache && d.pass.value.cache[k.0]
    && Upcoming(d.pass.value.todo, k)
  }

  lemma ExposedToCommit(d: Device, i: nat, k: Key)
    requires Exposed(d, i, k) && d.pass.value.armed
    ensures Enabled(d, Commit(true))
    ensures if KeyOf(d.pass.value.todo[0].body.row) == k then !OvertakesOnlyUnready(d, Commit(true))
            else Exposed(ReplayCommit(d, true), i, k)
  {
    hide RowsOf, Delete, IdsIncrease, Conserved;
    var p := d.pass.value;
    assert d.stash[Kept(p)] == p.todo[0];
    if KeyOf(p.todo[0].body.row) != k {
      CommitKeepsShape(d, true);
      TakeHead(d, ReplayCommit(d, true).pass.value);
    }
  }

  lemma ExposedToLook(d: Device, i: nat, k: Key)
    requires Exposed(d, i, k) && !d.pass.value.armed
    requires var b := d.pass.value.todo[0].body; b.Holds? && KeyOf(b.row) == k ==> ColumnReady(d.schema, b.row)
    ensures Enabled(d, Look) && Exposed(ReplayLook(d), i, k)
    ensures var p, p' := d.pass.value, ReplayLook(d).pass.value;
            |p'.todo| < |p.todo| || (|p'.todo| == |p.todo| && p'.armed)
  {
    hide RowsOf, Delete, IdsIncrease, Conserved;
    LookKeepsShape(d);
    if d.pass.value.todo[0].body.Empty? {
      TakeHead(d, ReplayLook(d).pass.value);
    }
  }

  lemma ExposedToColumn(d: Device, i: nat, k: Key, t: seq<byte>, c: seq<byte>)
    requires Exposed(d, i, k)
    ensures Exposed(Next(d, AddColumn(t, c)), i, k)
  {
    hide RowsOf, IdsIncrease, Upcoming;
  }

  lemma Front(d: Device, step: Step, more: seq<Step>)
    requires Enabled(d, step) && CanRun(Next(d, step), more)
    requires !OvertakesOnlyUnready(d, step) || !NeverOvertakesReady(Next(d, step), more)
    ensures CanRun(d, [step] + more) && !NeverOvertakesReady(d, [step] + more)
  {
    assert ([step] + more)[1..] == more;
    Unfold(d, [step] + more);
  }

  /** From there the pass has a way to apply that row past the one left behind. */
  lemma {:induction false} ExposedIsOvertaken(d: Device, i: nat, k: Key) returns (steps: seq<Step>)
    requires Exposed(d, i, k)
    ensures CanRun(d, steps) && !NeverOvertakesReady(d, steps)
    decreases |d.pass.value.todo|, if d.pass.value.armed then 0 else 1
  {
    hide Exposed, OvertakesOnlyUnready, NeverOvertakesReady, Ready;
    SomethingToDo(d, i, k);
    var p := d.pass.value;
    if p.armed {
      ExposedToCommit(d, i, k);
      var more := [];
      if KeyOf(p.todo[0].body.row) != k {
        more := ExposedIsOvertaken(ReplayCommit(d, true), i, k);
      }
      Front(d, Commit(true), more);
      steps := [Commit(true)] + more;
    } else if p.todo[0].body.Holds? && KeyOf(p.todo[0].body.row) == k && !ColumnReady(d.schema, p.todo[0].body.row) {
      var add := AddColumn(p.todo[0].body.row.table, p.todo[0].body.row.cid);
      var d1 := Next(d, add);
      ExposedToColumn(d, i, k, add.table, add.column);
      ExposedToLook(d1, i, k);
      var more := ExposedIsOvertaken(ReplayLook(d1), i, k);
      Front(d1, Look, more);
      Front(d, add, [Look] + more);
      steps := [add] + ([Look] + more);
    } else {
      ExposedToLook(d, i, k);
      var more := ExposedIsOvertaken(ReplayLook(d), i, k);
      Front(d, Look, more);
      steps := [Look] + more;
    }
  }

  lemma SomethingToDo(d: Device, i: nat, k: Key)
    requires Exposed(d, i, k)
    ensures d.pass.Some? && d.pass.value.todo != []
    ensures d.pass.value.armed ==> d.pass.value.todo[0].body.Holds?
  {
  }

  /** The condition is exact: whenever an addition does harm, the run has a continuation in which a
      row overtakes the one that the addition made ready. */
  lemma HarmfulColumnOvertakes(d: Device, step: Step) returns (more: seq<Step>)
    requires Shaped(d) && Harmful(d, step)
    ensures CanRun(d, [step] + more) && !NeverOvertakesReady(d, [step] + more)
  {
    hide IdsIncrease, RowsOf, Upcoming, NeverOvertakesReady, OvertakesOnlyUnready;
    var i :| 0 <= i < Kept(d.pass.value) && Awaits(d, i, step.table, step.column);
    more := ExposedIsOvertaken(Next(d, step), i, KeyOf(d.stash[i].body.row));
    Front(d, step, more);
  }

  lemma TwoRowsWait(schema: Schema, first: ChangeRow, second: ChangeRow)
    requires schema == Schema({}, {})
    ensures Next(Init(schema), MergeCommits([first, second]))
            == Device(schema, [], [Entry(1, Holds(first)), Entry(2, Holds(second))], 3, None, [first, second])
  {
    var d := Init(schema);
    var m := MergeRow(d, {}, first);
    assert ReadyStashedKeys(schema, d.stash) == {};
    assert [first, second][1..] == [second] && [second][1..] == [];
    assert MergeRows(d, {}, [first, second]) == MergeRows(m, {}, [second]);
    assert MergeRows(m, {}, [second]) == MergeRow(m, {}, second);
  }

  /** A pass has found the first of two waiting rows' table, but not its column. */
  lemma FirstRowLeft(d: Device, first: ChangeRow, second: ChangeRow)
    requires KeyOf(first) == KeyOf(second) && first.cid != SENTINEL_CID
    requires d == Device(Schema({}, {}), [], [Entry(1, Holds(first)), Entry(2, Holds(second))], 3, None,
                         [first, second])
    ensures Enabled(Next(d, Convert(first.table)), Begin)
    ensures var d3 := Next(Next(d, Convert(first.table)), Begin);
            Enabled(d3, Look) && Harmful(Next(d3, Look), AddColumn(first.table, first.cid))
  {
    hide RowsOf, MergeRows;
    var d3 := Next(Next(d, Convert(first.table)), Begin);
    var d4 := Next(d3, Look);
    assert d4.pass.value.todo == [Entry(2, Holds(second))] && d4.stash[0] == Entry(1, Holds(first));
    assert Upcoming(d4.pass.value.todo, KeyOf(first));
    assert Awaits(d4, 0, first.table, first.cid);
  }

  /** And such additions happen: for any two rows of one key that wait for their table, where the
      first names a column, a pass that finds the table but not the column is overtaken once the
      column appears. */
  lemma ColumnUnderPassOvertakes(first: ChangeRow, second: ChangeRow)
    returns (schema: Schema, steps: seq<Step>)
    requires KeyOf(first) == KeyOf(second) && first.cid != SENTINEL_CID
    ensures CanRun(Init(schema), steps) && !NeverOvertakesReady(Init(schema), steps)
  {
    hide NeverOvertakesReady, OvertakesOnlyUnready, Shaped, Next, Harmful;
    schema := Schema({}, {});
    var d0 := Init(schema);
    var merge, convert := MergeCommits([first, second]), Convert(first.table);
    var column := AddColumn(first.table, first.cid);
    TwoRowsWait(schema, first, second);
    var d1 := Next(d0, merge);
    FirstRowLeft(d1, first, second);
    var d2 := Next(d1, convert);
    var d3 := Next(d2, Begin);
    var d4 := Next(d3, Look);
    InitInv(schema);
    StepKeepsShape(d0, merge);
    StepKeepsShape(d1, convert);
    StepKeepsShape(d2, Begin);
    StepKeepsShape(d3, Look);
    var more := HarmfulColumnOvertakes(d4, column);
    var s4 := [column] + more;
    Front(d3, Look, s4);
    var s3 := [Look] + s4;
    Front(d2, Begin, s3);
    var s2 := [Begin] + s3;
    Front(d1, convert, s2);
    var s1 := [convert] + s2;
    Front(d0, merge, s1);
    steps := [merge] + s1;
  }

  // ---- Any gaps: per-column order and convergence ------------------------------------------------

  lemma MergeKeepsCells(d: Device, rows: seq<ChangeRow>)
    requires Inv(d) && FifoBy(d, CellOf)
    ensures FifoBy(Merge(d, rows), CellOf)
  {
    hide MergeRows, RowsOf, Of, IdsIncrease, PassShape, LeftInv;
    var barrier := ReadyStashedKeys(d.schema, d.stash);
    var d' := Merge(d, rows);
    forall k: Cell
      ensures Applied(d', CellOf, k) + Stashed(d', CellOf, k) == Arrived(d', CellOf, k)
    {
      var ready := k.0.0 in d.schema.crr && (k.1 == SENTINEL_CID || (k.0.0, k.1) in d.schema.columns);
      var wait := k.0 in barrier || !ready;
      if !wait {
        NoCellStashed(d, k);
      }
      MergeKeepsOrder(d, rows, CellOf, k, wait);
    }
  }

  /** A column that is here, of a key that is no barrier, has nothing stashed. */
  lemma NoCellStashed(d: Device, k: Cell)
    requires k.0 !in ReadyStashedKeys(d.schema, d.stash)
    requires k.0.0 in d.schema.crr && (k.1 == SENTINEL_CID || (k.0.0, k.1) in d.schema.columns)
    ensures Stashed(d, CellOf, k) == []
  {
    forall r | r in RowsOf(d.stash)
      ensures CellOf(r) != k
    {
      var e := MemberOfRows(d.stash, r);
    }
    OfNone(RowsOf(d.stash), CellOf, k);
  }

  /** No row of an armed row's column is stashed before it. */
  lemma NoEarlierCell(d: Device)
    requires Inv(d) && d.pass.Some? && d.pass.value.armed
    ensures forall x :: x in RowsOf(d.stash[..Kept(d.pass.value)]) ==>
              CellOf(x) != CellOf(d.pass.value.todo[0].body.row)
  {
    var i := Kept(d.pass.value);
    forall x | x in RowsOf(d.stash[..i])
      ensures CellOf(x) != CellOf(d.pass.value.todo[0].body.row)
    {
      var e := MemberOfRows(d.stash[..i], x);
      var j :| 0 <= j < i && d.stash[j] == e;
      assert LeftForCause(d.schema, d.pass.value, x) || !Upcoming(d.pass.value.todo, KeyOf(x));
    }
  }

  lemma StepKeepsCells(d: Device, step: Step)
    requires Inv(d) && FifoBy(d, CellOf) && Enabled(d, step)
    ensures FifoBy(Next(d, step), CellOf)
  {
    hide FifoBy;
    var d' := Next(d, step);
    match step
    case MergeCommits(rows) => MergeKeepsCells(d, rows);
    case Look => LookKeepsOrder(d, CellOf);
    case Commit(applies) =>
      if applies {
        NoEarlierCell(d);
        CommitKeepsOrder(d, CellOf);
      } else {
        SameRowsSameOrder(d, d', CellOf);
      }
    case _ => SameRowsSameOrder(d, d', CellOf);
  }

  lemma {:induction false} RunKeepsCells(d: Device, steps: seq<Step>)
    requires CanRun(d, steps) && ColumnsDoNoHarm(d, steps)
    requires Inv(d) && FifoBy(d, CellOf)
    ensures Inv(Run(d, steps)) && FifoBy(Run(d, steps), CellOf)
    decreases |steps|
  {
    hide Inv, FifoBy, Next, Harmful;
    if steps != [] {
      StepKeepsInv(d, steps[0]);
      StepKeepsCells(d, steps[0]);
      RunKeepsCells(Next(d, steps[0]), steps[1..]);
    }
  }

  /** With any gaps, tables or columns, as long as no column that appears does harm: in every reachable
      state and for every column of every row, what was applied followed by what is still stashed is
      what arrived, in arrival order. */
  lemma PerCellFifo(schema: Schema, steps: seq<Step>)
    requires CanRun(Init(schema), steps) && ColumnsDoNoHarm(Init(schema), steps)
    ensures FifoBy(Run(Init(schema), steps), CellOf)
  {
    InitInv(schema);
    InitOrder(schema, CellOf);
    RunKeepsCells(Init(schema), steps);
  }

  /** Then, once the stash has drained, the device is in the state of a device that could apply every
      row as it arrived, if applies to different columns commute. */
  lemma CellsConverge<S(!new)>(schema: Schema, steps: seq<Step>, apply: (S, ChangeRow) -> S, db: S)
    requires CanRun(Init(schema), steps) && ColumnsDoNoHarm(Init(schema), steps)
    requires KeysCommute(apply, CellOf)
    requires RowsOf(Run(Init(schema), steps).stash) == []
    ensures var d := Run(Init(schema), steps);
            Fold(apply, db, d.applied) == Fold(apply, db, d.arrived)
  {
    PerCellFifo(schema, steps);
    DrainedConverges(Run(Init(schema), steps), CellOf, apply, db);
  }

  // ---- A pass that meets no trouble ------------------------------------------------------------

  function DrainSteps(n: nat): seq<Step> {
    if n == 0 then [] else [Look, Commit(true)] + DrainSteps(n - 1)
  }

  /** Look at and apply every stashed row, undisturbed. */
  function QuietPass(d: Device): seq<Step> {
    [Begin] + DrainSteps(|d.stash|) + [Stop]
  }

  lemma {:induction false} RunConcat(d: Device, xs: seq<Step>, ys: seq<Step>)
    requires CanRun(d, xs) && CanRun(Run(d, xs), ys)
    ensures CanRun(d, xs + ys) && Run(d, xs + ys) == Run(Run(d, xs), ys)
    decreases |xs|
  {
    if xs == [] {
      assert xs + ys == ys;
    } else {
      assert (xs + ys)[1..] == xs[1..] + ys;
      RunConcat(Next(d, xs[0]), xs[1..], ys);
    }
  }

  ghost predicate Draining(d: Device) {
    && d.pass.Some? && d.pass.value.todo == d.stash && !d.pass.value.armed
    && d.pass.value.failedKeys == {}
    && (forall t :: t in d.pass.value.cache ==> d.pass.value.cache[t])
    && (forall e :: e in d.stash ==> e.body.Holds? && Ready(d.schema, e.body.row))
    && IdsIncrease(d.stash, d.nextId)
  }

  lemma DrainOne(d: Device)
    requires Draining(d) && d.stash != []
    ensures Enabled(d, Look) && Enabled(ReplayLook(d), Commit(true))
    ensures var d' := ReplayCommit(ReplayLook(d), true);
            && Draining(d') && d'.stash == d.stash[1..] && d'.schema == d.schema
            && d'.arrived == d.arrived && d'.applied == d.applied + [d.stash[0].body.row]
  {
    RemoveOne(d.stash, d.nextId, 0);
    assert d.stash[..0] + d.stash[1..] == d.stash[1..];
  }

  lemma {:induction false} DrainAll(d: Device)
    requires Draining(d)
    ensures CanRun(d, DrainSteps(|d.stash|))
    ensures var d' := Run(d, DrainSteps(|d.stash|));
            && d'.stash == [] && d'.applied == d.applied + RowsOf(d.stash)
            && d'.schema == d.schema && d'.arrived == d.arrived
    decreases |d.stash|
  {
    hide ReplayLook, ReplayCommit, Ready, IdsIncrease;
    if d.stash == [] {
      assert d.applied + RowsOf(d.stash) == d.applied;
    } else {
      DrainOne(d);
      var d' := ReplayCommit(ReplayLook(d), true);
      DrainAll(d');
      var more := DrainSteps(|d'.stash|);
      assert DrainSteps(|d.stash|) == [Look, Commit(true)] + more;
      assert ([Look, Commit(true)] + more)[1..] == [Commit(true)] + more;
      assert ([Commit(true)] + more)[1..] == more;
      assert RowsOf(d.stash) == [d.stash[0].body.row] + RowsOf(d'.stash);
      Assoc(d.applied, [d.stash[0].body.row], RowsOf(d'.stash));
    }
  }

  /** Once everything stashed is ready, an undisturbed pass empties the stash in arrival order. */
  lemma QuietPassDrains(d: Device)
    requires IdsIncrease(d.stash, d.nextId) && d.pass.None?
    requires forall e :: e in d.stash ==> e.body.Holds? && Ready(d.schema, e.body.row)
    ensures CanRun(d, QuietPass(d))
    ensures Run(d, QuietPass(d)) == d.(stash := [], applied := d.applied + RowsOf(d.stash))
  {
    var d1 := BeginPass(d);
    DrainAll(d1);
    var steps := DrainSteps(|d.stash|);
    var d2 := Run(d1, steps);
    DrainTouchesOnly(d1, |d.stash|);
    assert CanRun(d2, [Stop]) && Run(d2, [Stop]) == d2.(pass := None) by {
      assert [Stop][1..] == [];
    }
    assert CanRun(d, [Begin]) && Run(d, [Begin]) == d1 by {
      assert [Begin][1..] == [];
    }
    RunConcat(d, [Begin], steps);
    RunConcat(d, [Begin] + steps, [Stop]);
  }

  lemma {:induction false} DrainTouchesOnly(d: Device, n: nat)
    requires CanRun(d, DrainSteps(n))
    ensures Run(d, DrainSteps(n)).nextId == d.nextId
    decreases n
  {
    if n != 0 {
      var more := DrainSteps(n - 1);
      assert DrainSteps(n)[1..] == [Commit(true)] + more;
      assert ([Commit(true)] + more)[1..] == more;
      DrainTouchesOnly(Next(Next(d, Look), Commit(true)), n - 1);
    }
  }

  /** Whatever happened before, with whole-table gaps only: once every missing table is here, one
      undisturbed pass brings the device to the state of a device that had them all along. */
  lemma CatchesUp<S(!new)>(schema: Schema, steps: seq<Step>, apply: (S, ChangeRow) -> S, db: S)
    requires CanRun(Init(schema), steps) && WholeTableGapsThroughout(Init(schema), steps)
    requires KeysCommute(apply, KeyOf)
    requires var d := Run(Init(schema), steps);
             && d.pass.None?
             && forall e :: e in d.stash ==> e.body.Holds? && Ready(d.schema, e.body.row)
    ensures var d := Run(Init(schema), steps);
            && CanRun(d, QuietPass(d))
            && Fold(apply, db, Run(d, QuietPass(d)).applied) == Fold(apply, db, d.arrived)
  {
    var d := Run(Init(schema), steps);
    InitInv(schema);
    RunKeepsFifo(Init(schema), steps);
    QuietPassDrains(d);
    OrderToTheEnd(d, KeyOf, apply, db);
  }

  /** With every group in order, applying what is stashed in order gives the effect of the arrivals. */
  lemma OrderToTheEnd<S(!new), K(!new)>(d: Device, group: ChangeRow -> K, apply: (S, ChangeRow) -> S, db: S)
    requires FifoBy(d, group) && KeysCommute(apply, group)
    ensures Fold(apply, db, d.applied + RowsOf(d.stash)) == Fold(apply, db, d.arrived)
  {
    forall k: K
      ensures Of(d.applied + RowsOf(d.stash), group, k) == Of(d.arrived, group, k)
    {
      OfConcat(d.applied, RowsOf(d.stash), group, k);
      assert Applied(d, group, k) + Stashed(d, group, k) == Arrived(d, group, k);
    }
    SameByKeyThenSameFold(apply, group, db, d.applied + RowsOf(d.stash), d.arrived);
  }

  /** The same with any gaps, when applies to different columns commute: once every missing table and
      column is here, one undisturbed pass brings the device to the state of one that had them all
      along. */
  lemma CellsCatchUp<S(!new)>(schema: Schema, steps: seq<Step>, apply: (S, ChangeRow) -> S, db: S)
    requires CanRun(Init(schema), steps) && ColumnsDoNoHarm(Init(schema), steps)
    requires KeysCommute(apply, CellOf)
    requires var d := Run(Init(schema), steps);
             && d.pass.None?
             && forall e :: e in d.stash ==> e.body.Holds? && Ready(d.schema, e.body.row)
    ensures var d := Run(Init(schema), steps);
            && CanRun(d, QuietPass(d))
            && Fold(apply, db, Run(d, QuietPass(d)).applied) == Fold(apply, db, d.arrived)
  {
    var d := Run(Init(schema), steps);
    PerCellFifo(schema, steps);
    InitInv(schema);
    RunKeepsShape(Init(schema), steps);
    QuietPassDrains(d);
    OrderToTheEnd(d, CellOf, apply, db);
  }

  // ---- A corrupt blob ---------------------------------------------------------------------------

  predicate ReplayStep(step: Step) {
    step.Begin? || step.Look? || step.Commit? || step.Stop?
  }

  /** A blob that does not decode is not dropped: in any state with one at the head of the stash, no
      amount of replaying applies or deletes anything. */
  lemma {:induction false} CorruptHeadStopsReplay(d: Device, steps: seq<Step>)
    requires CanRun(d, steps) && forall s :: s in steps ==> ReplayStep(s)
    requires Shaped(d) && d.stash != [] && d.stash[0].body.Corrupt?
    ensures Run(d, steps).applied == d.applied && Run(d, steps).stash == d.stash
    decreases |steps|
  {
    if steps != [] {
      assert ReplayStep(steps[0]);
      StepKeepsShape(d, steps[0]);
      CorruptHeadStays(d, steps[0]);
      CorruptHeadStopsReplay(Next(d, steps[0]), steps[1..]);
    }
  }

  lemma CorruptHeadStays(d: Device, step: Step)
    requires Shaped(d) && Enabled(d, step) && ReplayStep(step) && d.stash != [] && d.stash[0].body.Corrupt?
    ensures Next(d, step).applied == d.applied && Next(d, step).stash == d.stash
  {
    hide IdsIncrease, RowsOf;
    if d.pass.Some? && d.pass.value.todo != [] {
      assert d.stash[Kept(d.pass.value)] == d.pass.value.todo[0];
      assert Kept(d.pass.value) == 0;
    }
  }

  /** One step leaves a corrupt blob and all that is stashed behind it where they are. */
  lemma StepStaysBehindCorrupt(d: Device, step: Step, j: nat) returns (j': nat)
    requires Shaped(d) && Enabled(d, step) && j < |d.stash| && d.stash[j].body.Corrupt?
    ensures var s := Next(d, step).stash; j' < |s| && d.stash[j..] <= s[j'..]
  {
    hide IdsIncrease, RowsOf, MergeRows, Delete;
    j' := j;
    match step
    case MergeCommits(rows) => MergeRowsAppends(d, ReadyStashedKeys(d.schema, d.stash), rows);
    case Look => if d.pass.value.todo[0].body.Empty? { j' := MovesUp(d, j); }
    case Commit(applies) => if applies { j' := MovesUp(d, j); }
    case _ =>
  }

  /** The head of `todo` lies before every corrupt blob but itself; taking it out moves those up. */
  lemma MovesUp(d: Device, j: nat) returns (j': nat)
    requires Shaped(d) && d.pass.Some? && d.pass.value.todo != [] && !d.pass.value.todo[0].body.Corrupt?
    requires j < |d.stash| && d.stash[j].body.Corrupt?
    ensures var s := Delete(d.stash, d.pass.value.todo[0].id); j' < |s| && d.stash[j..] == s[j'..]
  {
    hide IdsIncrease, RowsOf, Delete;
    var kept := Kept(d.pass.value);
    assert d.stash[kept] == d.pass.value.todo[0] && kept < j;
    RemoveOne(d.stash, d.nextId, kept);
    j' := j - 1;
    assert (d.stash[..kept] + d.stash[kept + 1..])[j'..] == d.stash[j..];
  }

  /** Over every run, merges and schema changes included: a stashed blob that does not decode stays, and
      so does everything stashed behind it. */
  lemma {:induction false} NothingPassesCorrupt(d: Device, steps: seq<Step>, j: nat)
    requires CanRun(d, steps) && Shaped(d)
    requires j < |d.stash| && d.stash[j].body.Corrupt?
    ensures forall e :: e in d.stash[j..] ==> e in Run(d, steps).stash
    decreases |steps|
  {
    hide Shaped, Next;
    if steps != [] {
      var j' := StepStaysBehindCorrupt(d, steps[0], j);
      var d' := Next(d, steps[0]);
      StepKeepsShape(d, steps[0]);
      assert d'.stash[j'] == d'.stash[j'..][0] == d.stash[j..][0];
      NothingPassesCorrupt(d', steps[1..], j');
      forall e | e in d.stash[j..] ensures e in Run(d, steps).stash {
        assert e in d'.stash[j'..];
      }
    }
  }

  // ---- A whole pass, with whatever the rest of the program does in between ----------------------

  predicate WorldStep(step: Step) {
    step.MergeCommits? || step.MergeFails? || step.Convert? || step.AddColumn?
  }

  /** What other connections do just before the i-th look and just before the i-th transaction. */
  datatype World = World(beforeLook: nat -> seq<Step>, beforeCommit: nat -> seq<Step>)

  ghost predicate Sane(w: World) {
    && (forall i: nat, s :: s in w.beforeLook(i) ==> WorldStep(s))
    && (forall i: nat, s :: s in w.beforeCommit(i) ==> WorldStep(s))
  }

  lemma {:induction false} WorldKeepsPass(d: Device, steps: seq<Step>)
    requires forall s :: s in steps ==> WorldStep(s)
    ensures CanRun(d, steps) && Run(d, steps).pass == d.pass
    decreases |steps|
  {
    if steps != [] {
      assert WorldStep(steps[0]);
      if steps[0].MergeCommits? {
        MergeKeepsPass(d, ReadyStashedKeys(d.schema, d.stash), steps[0].rows);
      }
      WorldKeepsPass(Next(d, steps[0]), steps[1..]);
    }
  }

  lemma {:induction false} MergeKeepsPass(d: Device, barrier: set<Key>, rows: seq<ChangeRow>)
    ensures MergeRows(d, barrier, rows).pass == d.pass
    decreases |rows|
  {
    if rows != [] {
      MergeKeepsPass(MergeRow(d, barrier, rows[0]), barrier, rows[1..]);
    }
  }

  ghost function RunWorld(d: Device, steps: seq<Step>): (d': Device)
    requires forall s :: s in steps ==> WorldStep(s)
    ensures d'.pass == d.pass
  {
    WorldKeepsPass(d, steps);
    Run(d, steps)
  }

  /** The rest of a pass, from its i-th candidate on; `applies(i)` says whether the i-th
      candidate's row is accepted. Gives the device afterwards, and the report unless a blob was
      corrupt. */
  ghost function RunPass(d: Device, w: World, applies: nat -> bool, i: nat): (Device, Option<Report>)
    requires Sane(w) && d.pass.Some? && !d.pass.value.armed
    decreases |d.pass.value.todo|
  {
    if d.pass.value.todo == [] then (d.(pass := None), Some(d.pass.value.report))
    else
      var d1 := ReplayLook(RunWorld(d, w.beforeLook(i)));
      if d1.pass.None? then (d1, None)
      else if !d1.pass.value.armed then RunPass(d1, w, applies, i + 1)
      else RunPass(ReplayCommit(RunWorld(d1, w.beforeCommit(i)), applies(i)), w, applies, i + 1)
  }

  /** The world does not see the local state of a pass. */
  lemma {:induction false} WorldIgnoresPass(d: Device, steps: seq<Step>)
    requires forall s :: s in steps ==> WorldStep(s)
    ensures RunWorld(d, steps).(pass := None) == RunWorld(d.(pass := None), steps)
    decreases |steps|
  {
    WorldKeepsPass(d, steps);
    WorldKeepsPass(d.(pass := None), steps);
    if steps != [] {
      assert WorldStep(steps[0]);
      if steps[0].MergeCommits? {
        MergeIgnoresPass(d, ReadyStashedKeys(d.schema, d.stash), steps[0].rows);
      }
      WorldKeepsPass(Next(d, steps[0]), []);
      WorldIgnoresPass(Next(d, steps[0]), steps[1..]);
      assert Next(d, steps[0]).(pass := None) == Next(d.(pass := None), steps[0]);
    }
  }

  lemma {:induction false} MergeIgnoresPass(d: Device, barrier: set<Key>, rows: seq<ChangeRow>)
    ensures MergeRows(d, barrier, rows).(pass := None) == MergeRows(d.(pass := None), barrier, rows)
    decreases |rows|
  {
    if rows != [] {
      MergeIgnoresPass(MergeRow(d, barrier, rows[0]), barrier, rows[1..]);
    }
  }

  lemma RunTwo(d: Device, xs: seq<Step>, step: Step, ys: seq<Step>)
    requires CanRun(d, xs) && Enabled(Run(d, xs), step) && CanRun(Next(Run(d, xs), step), ys)
    ensures CanRun(d, xs + [step] + ys)
    ensures Run(d, xs + [step] + ys) == Run(Next(Run(d, xs), step), ys)
  {
    var d1 := Run(d, xs);
    assert [step][1..] == [];
    assert CanRun(d1, [step]) && Run(d1, [step]) == Next(d1, step);
    RunConcat(d, xs, [step]);
    RunConcat(d, xs + [step], ys);
  }

  /** A pass under interference is a run of the machine, so everything proved of runs holds. */
  lemma {:induction false} PassIsARun(d: Device, w: World, applies: nat -> bool, i: nat) returns (steps: seq<Step>)
    requires Sane(w) && d.pass.Some? && !d.pass.value.armed
    ensures CanRun(d, steps) && Run(d, steps) == RunPass(d, w, applies, i).0
    decreases |d.pass.value.todo|
  {
    if d.pass.value.todo == [] {
      steps := [Stop];
      assert steps[1..] == [];
    } else {
      WorldKeepsPass(d, w.beforeLook(i));
      var d1 := ReplayLook(RunWorld(d, w.beforeLook(i)));
      if d1.pass.None? {
        steps := w.beforeLook(i) + [Look] + [];
        RunTwo(d, w.beforeLook(i), Look, []);
      } else if !d1.pass.value.armed {
        var more := PassIsARun(d1, w, applies, i + 1);
        steps := w.beforeLook(i) + [Look] + more;
        RunTwo(d, w.beforeLook(i), Look, more);
      } else {
        WorldKeepsPass(d1, w.beforeCommit(i));
        var d2 := ReplayCommit(RunWorld(d1, w.beforeCommit(i)), applies(i));
        var more := PassIsARun(d2, w, applies, i + 1);
        var tail := w.beforeCommit(i) + [Commit(applies(i))] + more;
        RunTwo(d1, w.beforeCommit(i), Commit(applies(i)), more);
        steps := w.beforeLook(i) + [Look] + tail;
        RunTwo(d, w.beforeLook(i), Look, tail);
      }
    }
  }

  /** Exactly when a pass comes to its end: when every blob it started with decodes. */
  lemma {:induction false} PassFinishesIff(d: Device, w: World, applies: nat -> bool, i: nat)
    requires Sane(w) && d.pass.Some? && !d.pass.value.armed
    ensures RunPass(d, w, applies, i).1.Some? <==> forall e :: e in d.pass.value.todo ==> !e.body.Corrupt?
    decreases |d.pass.value.todo|
  {
    var todo := d.pass.value.todo;
    if todo != [] {
      var d1 := ReplayLook(RunWorld(d, w.beforeLook(i)));
      assert todo == [todo[0]] + todo[1..];
      if d1.pass.Some? {
        var d2 := if d1.pass.value.armed then ReplayCommit(RunWorld(d1, w.beforeCommit(i)), applies(i)) else d1;
        PassFinishesIff(d2, w, applies, i + 1);
      }
    }
  }
}
