/** The application-level cascade of deletes: one pass over a fixed list of relationships removes the
    rows whose parent is proven deleted and clears the references that only dangle. A deleted row
    leaves an even sentinel behind; a row that was never merged leaves none. */
module Cascade {
  import opened Wrappers

  datatype Table =
    | Sessions | Folders | Tags | Segments | Notes | NoteVersions | ChatMessages | AudioParts | Shares
    | SessionFolders | SessionTags

  datatype Col = SessionId | NoteId | FolderId | ParentId | TagId

  datatype Key = Key(table: Table, pk: nat)

  /** A row's references; a column that is not listed is null. */
  type Row = map<Col, nat>

  datatype Db = Db(rows: map<Key, Row>, sentinel: map<Key, nat>)

  datatype Link = Link(fk: Col, parent: Table)

  /** Rows of `child` go when any of the links points to a deleted parent. */
  datatype Deletion = Deletion(child: Table, links: seq<Link>)

  datatype Nulling = Nulling(table: Table, link: Link)

  const CASCADE_DELETE: seq<Deletion> := [
    Deletion(Segments, [Link(SessionId, Sessions)]),
    Deletion(Notes, [Link(SessionId, Sessions)]),
    Deletion(NoteVersions, [Link(NoteId, Notes)]),
    Deletion(ChatMessages, [Link(SessionId, Sessions)]),
    Deletion(AudioParts, [Link(SessionId, Sessions)]),
    Deletion(Shares, [Link(FolderId, Folders)])]

  const CASCADE_JUNCTION: seq<Deletion> := [
    Deletion(SessionFolders, [Link(SessionId, Sessions), Link(FolderId, Folders)]),
    Deletion(SessionTags, [Link(SessionId, Sessions), Link(TagId, Tags)])]

  const SET_NULL: seq<Nulling> := [
    Nulling(Folders, Link(ParentId, Folders)),
    Nulling(Sessions, Link(FolderId, Folders))]

  // ---- One statement --------------------------------------------------------------------------------

  predicate Deleted(db: Db, k: Key) { k in db.sentinel && db.sentinel[k] % 2 == 0 }

  predicate RefersToDeleted(db: Db, row: Row, link: Link) {
    link.fk in row && Deleted(db, Key(link.parent, row[link.fk]))
  }

  predicate Doomed(db: Db, row: Row, links: seq<Link>) {
    exists i :: 0 <= i < |links| && RefersToDeleted(db, row, links[i])
  }

  function Victims(db: Db, d: Deletion): set<Key> {
    set k | k in db.rows && k.table == d.child && Doomed(db, db.rows[k], d.links)
  }

  /** The sentinel of a deleted row: the next even one. */
  function Stamped(db: Db, k: Key): nat {
    if k in db.sentinel then db.sentinel[k] + (if db.sentinel[k] % 2 == 0 then 2 else 1) else 2
  }

  function Delete(db: Db, victims: set<Key>): Db {
    Db(map k | k in db.rows && k !in victims :: db.rows[k],
       map k | k in db.sentinel.Keys + victims :: if k in victims then Stamped(db, k) else db.sentinel[k])
  }

  function Dangling(db: Db, n: Nulling): set<Key> {
    set k | k in db.rows && k.table == n.table && RefersToDeleted(db, db.rows[k], n.link)
  }

  function Null(db: Db, keys: set<Key>, fk: Col): Db {
    db.(rows := map k | k in db.rows :: if k in keys then db.rows[k] - {fk} else db.rows[k])
  }

  // ---- One pass ---------------------------------------------------------------------------------------

  /** Every table a relationship names is converted on this device. */
  predicate DeletionReady(crr: set<Table>, d: Deletion) {
    d.child in crr && forall i :: 0 <= i < |d.links| ==> d.links[i].parent in crr
  }

  predicate NullingReady(crr: set<Table>, n: Nulling) { n.table in crr && n.link.parent in crr }

  function Deletions(crr: set<Table>, db: Db, ds: seq<Deletion>): Db
    decreases |ds|
  {
    if ds == [] then db
    else Deletions(crr, if DeletionReady(crr, ds[0]) then Delete(db, Victims(db, ds[0])) else db, ds[1..])
  }

  function Nullings(crr: set<Table>, db: Db, ns: seq<Nulling>): Db
    decreases |ns|
  {
    if ns == [] then db
    else Nullings(crr, if NullingReady(crr, ns[0]) then Null(db, Dangling(db, ns[0]), ns[0].link.fk) else db, ns[1..])
  }

  const DELETIONS: seq<Deletion> := CASCADE_DELETE + CASCADE_JUNCTION

  function Pass(crr: set<Table>, db: Db): Db { Nullings(crr, Deletions(crr, db, DELETIONS), SET_NULL) }

  // ---- What the lists guarantee -------------------------------------------------------------------------

  predicate IsParent(d: Deletion, t: Table) { exists i :: 0 <= i < |d.links| && d.links[i].parent == t }

  /** A table is cleared before any relationship looks at it as a parent. */
  ghost predicate Ordered(ds: seq<Deletion>) {
    forall i, j :: 0 <= i <= j < |ds| ==> !IsParent(ds[i], ds[j].child)
  }

  lemma ListIsOrdered()
    ensures Ordered(DELETIONS)
  {
    forall i, j | 0 <= i <= j < |DELETIONS| ensures !IsParent(DELETIONS[i], DELETIONS[j].child) {
      assert DELETIONS[i] == if i < 6 then CASCADE_DELETE[i] else CASCADE_JUNCTION[i - 6];
      assert DELETIONS[j] == if j < 6 then CASCADE_DELETE[j] else CASCADE_JUNCTION[j - 6];
      if i > 1 {
        assert DELETIONS[j].child != Notes;
      }
    }
  }

  ghost predicate Clean(db: Db, d: Deletion) {
    forall k :: k in db.rows && k.table == d.child ==> !Doomed(db, db.rows[k], d.links)
  }

  ghost predicate NullClean(db: Db, n: Nulling) {
    forall k :: k in db.rows && k.table == n.table ==> !RefersToDeleted(db, db.rows[k], n.link)
  }

  /** How far a pass has come: rows only disappear, and the deleted keys are those deleted before and
      those of the rows that disappeared. */
  ghost predicate Progress(before: Db, db: Db) {
    && (forall k :: k in db.rows ==> k in before.rows && db.rows[k] == before.rows[k])
    && (forall k :: Deleted(db, k) <==> Deleted(before, k) || (k in before.rows && k !in db.rows))
  }

  lemma DeleteMakesProgress(before: Db, db: Db, d: Deletion)
    requires Progress(before, db)
    ensures Progress(before, Delete(db, Victims(db, d)))
    ensures forall k :: Deleted(Delete(db, Victims(db, d)), k) <==> Deleted(db, k) || k in Victims(db, d)
  {
    var v := Victims(db, d);
    var t := Delete(db, v);
    forall k ensures Deleted(t, k) <==> Deleted(db, k) || k in v {
      if k in v { StampIsEven(db, k); }
    }
  }

  /** The next even number: a delete is recorded above everything that was recorded before. */
  lemma StampIsEven(db: Db, k: Key)
    ensures Stamped(db, k) % 2 == 0 && Stamped(db, k) > 0
    ensures k in db.sentinel ==> db.sentinel[k] < Stamped(db, k) <= db.sentinel[k] + 2
    ensures k !in db.sentinel ==> Stamped(db, k) == 2
  {
  }

  lemma DeleteCleans(db: Db, d: Deletion)
    requires !IsParent(d, d.child)
    ensures Clean(Delete(db, Victims(db, d)), d)
  {
    var t := Delete(db, Victims(db, d));
    forall k | k in t.rows && k.table == d.child ensures !Doomed(t, t.rows[k], d.links) {
      assert k !in Victims(db, d);
      SameVerdict(db, t, t.rows[k], d);
    }
  }

  /** Deleting rows of a table that is not a parent in `d` changes no verdict of `d`. */
  lemma SameVerdict(db: Db, t: Db, row: Row, d: Deletion)
    requires forall k: Key :: IsParent(d, k.table) ==> (Deleted(t, k) <==> Deleted(db, k))
    ensures Doomed(db, row, d.links) <==> Doomed(t, row, d.links)
  {
    forall i | 0 <= i < |d.links|
      ensures RefersToDeleted(db, row, d.links[i]) <==> RefersToDeleted(t, row, d.links[i])
    {
      assert IsParent(d, d.links[i].parent);
    }
  }

  lemma DeleteKeepsClean(db: Db, done: Deletion, d: Deletion)
    requires Clean(db, done) && !IsParent(done, d.child)
    ensures Clean(Delete(db, Victims(db, d)), done)
  {
    var t := Delete(db, Victims(db, d));
    forall k | k in t.rows && k.table == done.child ensures !Doomed(t, t.rows[k], done.links) {
      SameVerdict(db, t, t.rows[k], done);
    }
  }

  ghost predicate AllClean(crr: set<Table>, db: Db, ds: seq<Deletion>) {
    forall i :: 0 <= i < |ds| && DeletionReady(crr, ds[i]) ==> Clean(db, ds[i])
  }

  lemma {:induction false} DeletionsClean(crr: set<Table>, before: Db, db: Db, done: seq<Deletion>, ds: seq<Deletion>)
    requires Ordered(done + ds) && AllClean(crr, db, done) && Progress(before, db)
    ensures AllClean(crr, Deletions(crr, db, ds), done + ds) && Progress(before, Deletions(crr, db, ds))
    decreases |ds|
  {
    hide Clean, Progress, Delete, DeletionReady, IsParent;
    if ds == [] {
      assert done + ds == done;
    } else {
      var d := ds[0];
      var t := if DeletionReady(crr, d) then Delete(db, Victims(db, d)) else db;
      assert (done + [d]) + ds[1..] == done + ds;
      assert (done + ds)[|done|] == d;
      if DeletionReady(crr, d) {
        DeleteCleans(db, d);
        DeleteMakesProgress(before, db, d);
        forall i | 0 <= i < |done| && DeletionReady(crr, done[i]) ensures Clean(t, done[i]) {
          assert (done + ds)[i] == done[i];
          DeleteKeepsClean(db, done[i], d);
        }
      }
      DeletionsClean(crr, before, t, done + [d], ds[1..]);
    }
  }

  // ---- Exactly the orphans go -------------------------------------------------------------------------------

  /** A ready relationship makes the live row `child` hang on `parent`. */
  ghost predicate HangsOn(db: Db, crr: set<Table>, ds: seq<Deletion>, child: Key, parent: Key) {
    && child in db.rows
    && exists i, l ::
         0 <= i < |ds| && 0 <= l < |ds[i].links| && By(db, crr, ds[i], ds[i].links[l], child, parent)
  }

  ghost predicate By(db: Db, crr: set<Table>, d: Deletion, link: Link, child: Key, parent: Key)
    requires child in db.rows
  {
    && DeletionReady(crr, d) && d.child == child.table
    && link.fk in db.rows[child] && Key(link.parent, db.rows[child][link.fk]) == parent
  }

  /** A line of references, from a key that is proven deleted down to a row. */
  ghost predicate Line(db: Db, crr: set<Table>, ds: seq<Deletion>, path: seq<Key>) {
    && |path| >= 2 && Deleted(db, path[0])
    && forall i :: 0 < i < |path| ==> HangsOn(db, crr, ds, path[i], path[i - 1])
  }

  ghost predicate Orphan(db: Db, crr: set<Table>, ds: seq<Deletion>, k: Key) {
    exists path :: Line(db, crr, ds, path) && path[|path| - 1] == k
  }

  lemma OrphanBelow(db: Db, crr: set<Table>, ds: seq<Deletion>, parent: Key, child: Key)
    requires HangsOn(db, crr, ds, child, parent) && (Deleted(db, parent) || Orphan(db, crr, ds, parent))
    ensures Orphan(db, crr, ds, child)
  {
    hide HangsOn;
    if Deleted(db, parent) {
      assert Line(db, crr, ds, [parent, child]);
    } else {
      var path :| Line(db, crr, ds, path) && path[|path| - 1] == parent;
      assert Line(db, crr, ds, path + [child]);
    }
  }

  ghost predicate OnlyOrphansGone(before: Db, db: Db, crr: set<Table>, all: seq<Deletion>) {
    forall k :: k in before.rows && k !in db.rows ==> Orphan(before, crr, all, k)
  }

  lemma VictimsAreOrphans(before: Db, db: Db, crr: set<Table>, all: seq<Deletion>, at: nat)
    requires at < |all| && DeletionReady(crr, all[at])
    requires Progress(before, db) && OnlyOrphansGone(before, db, crr, all)
    ensures OnlyOrphansGone(before, Delete(db, Victims(db, all[at])), crr, all)
  {
    hide Orphan;
    var d := all[at];
    var t := Delete(db, Victims(db, d));
    forall k | k in before.rows && k !in t.rows ensures Orphan(before, crr, all, k) {
      if k in db.rows {
        var l :| 0 <= l < |d.links| && RefersToDeleted(db, db.rows[k], d.links[l]);
        var parent := Key(d.links[l].parent, db.rows[k][d.links[l].fk]);
        assert By(before, crr, all[at], all[at].links[l], k, parent);
        OrphanBelow(before, crr, all, parent, k);
      }
    }
  }

  lemma {:induction false} DeletionsTakeOrphans(crr: set<Table>, before: Db, db: Db, all: seq<Deletion>, from: nat)
    requires from <= |all| && Progress(before, db) && OnlyOrphansGone(before, db, crr, all)
    ensures OnlyOrphansGone(before, Deletions(crr, db, all[from..]), crr, all)
    decreases |all| - from
  {
    hide OnlyOrphansGone, Progress, Delete, DeletionReady;
    if from < |all| {
      var d := all[from];
      var t := if DeletionReady(crr, d) then Delete(db, Victims(db, d)) else db;
      if DeletionReady(crr, d) {
        VictimsAreOrphans(before, db, crr, all, from);
        DeleteMakesProgress(before, db, d);
      }
      assert all[from..][0] == d && all[from..][1..] == all[from + 1..];
      DeletionsTakeOrphans(crr, before, t, all, from + 1);
    }
  }

  /** Along a line of references every key is deleted in the end. */
  lemma {:induction false} LinesAreGone(before: Db, db: Db, crr: set<Table>, ds: seq<Deletion>, path: seq<Key>, n: nat)
    requires Progress(before, db) && AllClean(crr, db, ds) && Line(before, crr, ds, path) && n < |path|
    ensures Deleted(db, path[n])
    ensures n > 0 ==> path[n] !in db.rows
    decreases n
  {
    hide DeletionReady, Deleted;
    if n > 0 {
      LinesAreGone(before, db, crr, ds, path, n - 1);
      var child, parent := path[n], path[n - 1];
      assert HangsOn(before, crr, ds, child, parent);
      var i, l :| 0 <= i < |ds| && 0 <= l < |ds[i].links| && By(before, crr, ds[i], ds[i].links[l], child, parent);
      if child in db.rows {
        assert false;
      }
    }
  }

  /** The deletions of a pass remove exactly the rows from which a line of references leads to a key
      that was proven deleted beforehand; a row below a parent that is merely absent stays. */
  lemma ExactlyOrphansGo(crr: set<Table>, db: Db, k: Key)
    requires k in db.rows
    ensures k !in Deletions(crr, db, DELETIONS).rows <==> Orphan(db, crr, DELETIONS, k)
    ensures k in Deletions(crr, db, DELETIONS).rows ==> Deletions(crr, db, DELETIONS).rows[k] == db.rows[k]
  {
    hide Deletions, HangsOn, Clean, DELETIONS;
    ListIsOrdered();
    assert [] + DELETIONS == DELETIONS && DELETIONS[0..] == DELETIONS;
    DeletionsClean(crr, db, db, [], DELETIONS);
    DeletionsTakeOrphans(crr, db, db, DELETIONS, 0);
    var t := Deletions(crr, db, DELETIONS);
    if Orphan(db, crr, DELETIONS, k) {
      var path :| Line(db, crr, DELETIONS, path) && path[|path| - 1] == k;
      LinesAreGone(db, t, crr, DELETIONS, path, |path| - 1);
    }
  }

  // ---- References are cleared, and a pass is a fixpoint -----------------------------------------------------

  /** The reference `c` of row `k` is cleared by a ready relationship. */
  ghost predicate Cleared(crr: set<Table>, db: Db, ns: seq<Nulling>, k: Key, c: Col)
    requires k in db.rows
  {
    exists i :: 0 <= i < |ns| && NullingReady(crr, ns[i]) && ns[i].table == k.table && ns[i].link.fk == c
                && RefersToDeleted(db, db.rows[k], ns[i].link)
  }

  /** Clearing keeps every row, every sentinel and every other reference. */
  ghost predicate Trimmed(before: Db, db: Db) {
    && db.sentinel == before.sentinel && db.rows.Keys == before.rows.Keys
    && forall k, c :: k in db.rows && c in db.rows[k] ==> c in before.rows[k] && db.rows[k][c] == before.rows[k][c]
  }

  lemma {:induction false} NullingsClear(crr: set<Table>, db: Db, ns: seq<Nulling>)
    ensures var t := Nullings(crr, db, ns);
            && Trimmed(db, t)
            && forall k, c :: k in db.rows && c in db.rows[k] ==> (c !in t.rows[k] <==> Cleared(crr, db, ns, k, c))
    decreases |ns|
  {
    if ns != [] {
      var n := ns[0];
      var m := if NullingReady(crr, n) then Null(db, Dangling(db, n), n.link.fk) else db;
      var t := Nullings(crr, db, ns);
      NullingsClear(crr, m, ns[1..]);
      forall k, c | k in db.rows && c in db.rows[k] ensures c !in t.rows[k] <==> Cleared(crr, db, ns, k, c) {
        ClearedFirst(crr, db, m, ns, k, c);
      }
    }
  }

  lemma ClearedFirst(crr: set<Table>, db: Db, m: Db, ns: seq<Nulling>, k: Key, c: Col)
    requires ns != [] && k in db.rows && c in db.rows[k]
    requires m == if NullingReady(crr, ns[0]) then Null(db, Dangling(db, ns[0]), ns[0].link.fk) else db
    ensures k in m.rows
    ensures Cleared(crr, db, ns, k, c) <==> c !in m.rows[k] || Cleared(crr, m, ns[1..], k, c)
  {
    hide Deleted;
    var n, rest := ns[0], ns[1..];
    if c in m.rows[k] {
      forall i | 0 <= i < |rest|
        ensures RefersToDeleted(m, m.rows[k], rest[i].link) && rest[i].link.fk == c
                <==> RefersToDeleted(db, db.rows[k], ns[i + 1].link) && ns[i + 1].link.fk == c
      {
        SameDeleted(db, m, Key(rest[i].link.parent, db.rows[k][c]));
      }
      if Cleared(crr, db, ns, k, c) {
        var i :| 0 <= i < |ns| && NullingReady(crr, ns[i]) && ns[i].table == k.table && ns[i].link.fk == c
                 && RefersToDeleted(db, db.rows[k], ns[i].link);
        assert i > 0;
        assert rest[i - 1] == ns[i];
      }
      if Cleared(crr, m, rest, k, c) {
        var i :| 0 <= i < |rest| && NullingReady(crr, rest[i]) && rest[i].table == k.table && rest[i].link.fk == c
                 && RefersToDeleted(m, m.rows[k], rest[i].link);
        assert ns[i + 1] == rest[i];
      }
    }
  }

  lemma SameDeleted(db: Db, t: Db, k: Key)
    requires t.sentinel == db.sentinel
    ensures Deleted(t, k) <==> Deleted(db, k)
  {
  }

  lemma TrimmedStaysClean(before: Db, db: Db, d: Deletion)
    requires Trimmed(before, db) && Clean(before, d)
    ensures Clean(db, d)
  {
    forall k | k in db.rows && k.table == d.child ensures !Doomed(db, db.rows[k], d.links) {
      if i :| 0 <= i < |d.links| && RefersToDeleted(db, db.rows[k], d.links[i]) {
        assert RefersToDeleted(before, before.rows[k], d.links[i]);
        assert Doomed(before, before.rows[k], d.links);
      }
    }
  }

  ghost predicate AllNullClean(crr: set<Table>, db: Db, ns: seq<Nulling>) {
    forall i :: 0 <= i < |ns| && NullingReady(crr, ns[i]) ==> NullClean(db, ns[i])
  }

  lemma NullingsClean(crr: set<Table>, db: Db, ns: seq<Nulling>)
    ensures AllNullClean(crr, Nullings(crr, db, ns), ns)
  {
    hide Nullings;
    NullingsClear(crr, db, ns);
    var t := Nullings(crr, db, ns);
    forall i, k | 0 <= i < |ns| && NullingReady(crr, ns[i]) && k in t.rows && k.table == ns[i].table
      ensures !RefersToDeleted(t, t.rows[k], ns[i].link)
    {
      if RefersToDeleted(t, t.rows[k], ns[i].link) {
        assert false;
      }
    }
  }

  lemma {:induction false} NothingToDelete(crr: set<Table>, db: Db, ds: seq<Deletion>)
    requires AllClean(crr, db, ds)
    ensures Deletions(crr, db, ds) == db
    decreases |ds|
  {
    if ds != [] {
      if DeletionReady(crr, ds[0]) {
        assert Clean(db, ds[0]);
        assert Victims(db, ds[0]) == {};
        assert Delete(db, {}).rows == db.rows && Delete(db, {}).sentinel == db.sentinel;
      }
      NothingToDelete(crr, db, ds[1..]);
    }
  }

  lemma {:induction false} NothingToNull(crr: set<Table>, db: Db, ns: seq<Nulling>)
    requires AllNullClean(crr, db, ns)
    ensures Nullings(crr, db, ns) == db
    decreases |ns|
  {
    if ns != [] {
      if NullingReady(crr, ns[0]) {
        assert NullClean(db, ns[0]);
        assert Dangling(db, ns[0]) == {};
        assert Null(db, {}, ns[0].link.fk).rows == db.rows;
      }
      NothingToNull(crr, db, ns[1..]);
    }
  }

  /** One pass is enough: afterwards no live row refers to a deleted parent through a relationship
      whose tables are ready, and a second pass changes nothing. */
  lemma OnePassIsAFixpoint(crr: set<Table>, db: Db)
    ensures var t := Pass(crr, db);
            AllClean(crr, t, DELETIONS) && AllNullClean(crr, t, SET_NULL) && Pass(crr, t) == t
  {
    hide Deletions, Nullings, DELETIONS, SET_NULL, Clean, NullClean;
    ListIsOrdered();
    assert [] + DELETIONS == DELETIONS;
    var m := Deletions(crr, db, DELETIONS);
    var t := Nullings(crr, m, SET_NULL);
    DeletionsClean(crr, db, db, [], DELETIONS);
    NullingsClear(crr, m, SET_NULL);
    NullingsClean(crr, m, SET_NULL);
    forall i | 0 <= i < |DELETIONS| && DeletionReady(crr, DELETIONS[i]) ensures Clean(t, DELETIONS[i]) {
      TrimmedStaysClean(m, t, DELETIONS[i]);
    }
    NothingToDelete(crr, t, DELETIONS);
    NothingToNull(crr, t, SET_NULL);
  }

  /** What a pass does to a row: it goes if it is an orphan; otherwise it stays, and of its references
      exactly those are cleared that a ready set-null relationship finds deleted. A reference to a
      parent without a delete mark is never touched. */
  lemma PassIsExact(crr: set<Table>, db: Db, k: Key)
    requires k in db.rows
    ensures var m, t := Deletions(crr, db, DELETIONS), Pass(crr, db);
            && (k !in t.rows <==> Orphan(db, crr, DELETIONS, k))
            && (k in t.rows ==>
                  && k in m.rows && m.rows[k] == db.rows[k]
                  && forall c :: c in db.rows[k] ==>
                       && (c !in t.rows[k] <==> Cleared(crr, m, SET_NULL, k, c))
                       && (c in t.rows[k] ==> t.rows[k][c] == db.rows[k][c]))
  {
    hide Deletions, Nullings, DELETIONS, SET_NULL, Orphan, Cleared;
    ExactlyOrphansGo(crr, db, k);
    NullingsClear(crr, Deletions(crr, db, DELETIONS), SET_NULL);
  }

  /** Only an even mark counts: on a device where every marked row is alive, whose mark is odd, a pass changes
      nothing, however many references lead nowhere. */
  lemma OnlyEvenMarksCount(crr: set<Table>, db: Db)
    requires forall k :: k in db.sentinel ==> db.sentinel[k] % 2 == 1
    ensures Pass(crr, db) == db
  {
    hide Deletions, Nullings, DELETIONS, SET_NULL;
    NothingToDelete(crr, db, DELETIONS);
    NothingToNull(crr, db, SET_NULL);
  }

  /** A table that is not converted here is left alone, and so is one whose relationship names such a parent. */
  lemma UnconvertedStays(crr: set<Table>, db: Db, k: Key)
    requires k in db.rows
    requires k.table !in crr
             || exists i, l :: 0 <= i < |DELETIONS| && 0 <= l < |DELETIONS[i].links| && DELETIONS[i].child == k.table
                               && DELETIONS[i].links[l].parent !in crr
    ensures k in Pass(crr, db).rows
  {
    ListHasOneEach();
    hide DELETIONS, Deletions, Nullings, SET_NULL, Cleared;
    PassIsExact(crr, db, k);
    if Orphan(db, crr, DELETIONS, k) { OrphanOfReady(db, crr, DELETIONS, k); }
  }

  lemma OrphanOfReady(db: Db, crr: set<Table>, ds: seq<Deletion>, k: Key)
    requires Orphan(db, crr, ds, k)
    ensures exists i :: 0 <= i < |ds| && DeletionReady(crr, ds[i]) && ds[i].child == k.table
  {
    var path :| Line(db, crr, ds, path) && path[|path| - 1] == k;
    assert HangsOn(db, crr, ds, path[|path| - 1], path[|path| - 2]);
  }

  /** The references along which deletes spread, once every table is converted: to the session, note or folder a
      row belongs to, and for a junction row to either of its parents. */
  lemma WhatHangsOnWhat(crr: set<Table>, db: Db, child: Key, parent: Key)
    requires child in db.rows && forall t: Table :: t in crr
    ensures var row := db.rows[child];
            HangsOn(db, crr, DELETIONS, child, parent) <==>
              match child.table
              case Segments | Notes | ChatMessages | AudioParts => Names(row, SessionId, Sessions, parent)
              case NoteVersions => Names(row, NoteId, Notes, parent)
              case Shares => Names(row, FolderId, Folders, parent)
              case SessionFolders => Names(row, SessionId, Sessions, parent) || Names(row, FolderId, Folders, parent)
              case SessionTags => Names(row, SessionId, Sessions, parent) || Names(row, TagId, Tags, parent)
              case _ => false
  {
    if HangsOn(db, crr, DELETIONS, child, parent) {
      var i, l :| 0 <= i < |DELETIONS| && 0 <= l < |DELETIONS[i].links|
                  && By(db, crr, DELETIONS[i], DELETIONS[i].links[l], child, parent);
      assert DELETIONS[i] == if i < 6 then CASCADE_DELETE[i] else CASCADE_JUNCTION[i - 6];
    }
    var row := db.rows[child];
    var at := Relationship(child.table);
    if at < 8 {
      var d := DELETIONS[at];
      assert d == if at < 6 then CASCADE_DELETE[at] else CASCADE_JUNCTION[at - 6];
      forall l | 0 <= l < |d.links| && Names(row, d.links[l].fk, d.links[l].parent, parent)
        ensures HangsOn(db, crr, DELETIONS, child, parent)
      {
        assert By(db, crr, DELETIONS[at], DELETIONS[at].links[l], child, parent);
      }
      assert d.links[0] == d.links[0] && d.links[|d.links| - 1] == d.links[|d.links| - 1];
    }
  }

  /** The references that a pass clears instead: a folder's to its parent folder and a session's to its folder,
      if that folder is marked deleted. */
  lemma WhatIsCleared(crr: set<Table>, db: Db, k: Key, c: Col)
    requires k in db.rows && forall t: Table :: t in crr
    ensures Cleared(crr, db, SET_NULL, k, c) <==>
            && ((k.table == Folders && c == ParentId) || (k.table == Sessions && c == FolderId))
            && c in db.rows[k] && Deleted(db, Key(Folders, db.rows[k][c]))
  {
    hide Deleted;
    if c in db.rows[k] && Deleted(db, Key(Folders, db.rows[k][c])) {
      var i := if k.table == Folders then 0 else 1;
      assert k.table == SET_NULL[i].table && c == SET_NULL[i].link.fk ==>
               RefersToDeleted(db, db.rows[k], SET_NULL[i].link);
    }
  }

  /** The place of a child table in the list. */
  function Relationship(t: Table): nat {
    match t
    case Segments => 0
    case Notes => 1
    case NoteVersions => 2
    case ChatMessages => 3
    case AudioParts => 4
    case Shares => 5
    case SessionFolders => 6
    case SessionTags => 7
    case _ => 8
  }

  predicate Names(row: Row, c: Col, t: Table, parent: Key) { c in row && Key(t, row[c]) == parent }

  /** The marks of all keys but those of rows that went are as they were. */
  ghost predicate MarksKept(before: Db, db: Db) {
    forall k :: !(k in before.rows && k !in db.rows) ==>
      (k in before.sentinel <==> k in db.sentinel) && (k in before.sentinel ==> db.sentinel[k] == before.sentinel[k])
  }

  lemma {:induction false} DeletionsKeepMarks(crr: set<Table>, before: Db, db: Db, ds: seq<Deletion>)
    requires Progress(before, db) && MarksKept(before, db)
    ensures Progress(before, Deletions(crr, db, ds)) && MarksKept(before, Deletions(crr, db, ds))
    decreases |ds|
  {
    if ds != [] {
      if DeletionReady(crr, ds[0]) {
        DeleteMakesProgress(before, db, ds[0]);
        DeletionsKeepMarks(crr, before, Delete(db, Victims(db, ds[0])), ds[1..]);
      } else {
        DeletionsKeepMarks(crr, before, db, ds[1..]);
      }
    }
  }

  /** A pass adds no row and no reference; it marks the rows that it deletes as deleted, and touches no other
      mark. */
  lemma PassOnlyTakes(crr: set<Table>, db: Db, k: Key)
    ensures var t := Pass(crr, db);
            && (k in t.rows ==> k in db.rows && t.rows[k].Keys <= db.rows[k].Keys)
            && (k in db.rows && k !in t.rows ==> Deleted(t, k))
            && (!(k in db.rows && k !in t.rows) ==>
                  (k in t.sentinel <==> k in db.sentinel)
                  && (k in db.sentinel ==> t.sentinel[k] == db.sentinel[k]))
  {
    hide Deletions, Nullings, DELETIONS, SET_NULL, Cleared;
    DeletionsKeepMarks(crr, db, db, DELETIONS);
    NullingsClear(crr, Deletions(crr, db, DELETIONS), SET_NULL);
  }

  // ---- The order is exactly what it takes -------------------------------------------------------------------

  /** Each table is cleared by one relationship, which names a parent. The program's list is of this kind. */
  ghost predicate OneEach(ds: seq<Deletion>) {
    && (forall i, j :: 0 <= i < j < |ds| ==> ds[i].child != ds[j].child)
    && (forall i :: 0 <= i < |ds| ==> ds[i].links != [])
  }

  lemma ListHasOneEach()
    ensures OneEach(DELETIONS)
  {
    forall i | 0 <= i < |DELETIONS|
      ensures DELETIONS[i] == if i < 6 then CASCADE_DELETE[i] else CASCADE_JUNCTION[i - 6]
    {
    }
  }

  const ALL_TABLES: set<Table> := {
    Sessions, Folders, Tags, Segments, Notes, NoteVersions, ChatMessages, AudioParts, Shares,
    SessionFolders, SessionTags}

  lemma EveryTable(t: Table)
    ensures t in ALL_TABLES
  {
  }

  lemma AllAreReady(d: Deletion)
    ensures DeletionReady(ALL_TABLES, d)
  {
    hide ALL_TABLES;
    EveryTable(d.child);
    forall i | 0 <= i < |d.links| ensures d.links[i].parent in ALL_TABLES { EveryTable(d.links[i].parent); }
  }

  ghost predicate Present(db: Db, k: Key, row: Row) { k in db.rows && db.rows[k] == row }

  /** Relationships with other children leave a row alone, and what is deleted stays deleted. */
  lemma {:induction false} OthersLeave(crr: set<Table>, before: Db, db: Db, ds: seq<Deletion>)
    requires Progress(before, db)
    ensures var t := Deletions(crr, db, ds);
            && Progress(before, t)
            && (forall k :: Deleted(db, k) ==> Deleted(t, k))
            && (forall k :: k in db.rows && (forall i :: 0 <= i < |ds| ==> ds[i].child != k.table) ==>
                  Present(t, k, db.rows[k]))
    decreases |ds|
  {
    hide Progress, Deleted, DeletionReady, Doomed;
    if ds != [] {
      var d, rest := ds[0], ds[1..];
      var m := if DeletionReady(crr, d) then Delete(db, Victims(db, d)) else db;
      if DeletionReady(crr, d) {
        DeleteMakesProgress(before, db, d);
      }
      OthersLeave(crr, before, m, rest);
      forall k | k in db.rows && forall i :: 0 <= i < |ds| ==> ds[i].child != k.table
        ensures Present(Deletions(crr, db, ds), k, db.rows[k])
      {
        assert ds[0].child != k.table;
        assert Present(m, k, db.rows[k]);
        forall i | 0 <= i < |rest| ensures rest[i].child != k.table { assert rest[i] == ds[i + 1]; }
      }
    }
  }

  /** The smallest trap: `x` refers to `y`, and `y` to a key that is deleted already. */
  ghost function Trap(x: Key, xFk: Col, y: Key, yFk: Col, z: Key): Db {
    Db(map[x := map[xFk := y.pk], y := map[yFk := z.pk]], map[z := 2])
  }

  /** While neither row of the trap has gone, only `z` is deleted. */
  lemma OnlyZ(trap: Db, db: Db, x: Key, xFk: Col, y: Key, yFk: Col, z: Key, k: Key)
    requires trap == Trap(x, xFk, y, yFk, z) && x != y && Progress(trap, db) && x in db.rows && y in db.rows
    ensures Deleted(db, k) <==> k == z
    ensures db.rows[x] == map[xFk := y.pk] && db.rows[y] == map[yFk := z.pk]
  {
  }

  /** The relationship of `x` looks too early: `y` is still there. */
  lemma LooksTooEarly(trap: Db, db: Db, x: Key, xFk: Col, y: Key, yFk: Col, z: Key, d: Deletion)
    requires trap == Trap(x, xFk, y, yFk, z) && x != y && Progress(trap, db) && x in db.rows && y in db.rows
    requires y.pk != z.pk
    ensures x !in Victims(db, d)
  {
    OnlyZ(trap, db, x, xFk, y, yFk, z, z);
    if Doomed(db, db.rows[x], d.links) {
      var l :| 0 <= l < |d.links| && RefersToDeleted(db, db.rows[x], d.links[l]);
      OnlyZ(trap, db, x, xFk, y, yFk, z, Key(d.links[l].parent, y.pk));
    }
  }

  /** The relationship of `y` takes it. */
  lemma TakesY(trap: Db, db: Db, x: Key, xFk: Col, y: Key, yFk: Col, z: Key, d: Deletion)
    requires trap == Trap(x, xFk, y, yFk, z) && x != y && Progress(trap, db) && x in db.rows && y in db.rows
    requires d.child == y.table && d.links != [] && d.links[0] == Link(yFk, z.table)
    ensures y in Victims(db, d) && Deleted(Delete(db, Victims(db, d)), y)
  {
    OnlyZ(trap, db, x, xFk, y, yFk, z, z);
    assert RefersToDeleted(db, db.rows[y], d.links[0]);
    DeleteMakesProgress(db, db, d);
  }

  lemma Split(crr: set<Table>, db: Db, ds: seq<Deletion>, j: nat)
    requires j < |ds| && DeletionReady(crr, ds[j])
    ensures var m := Deletions(crr, db, ds[..j]);
            Deletions(crr, db, ds) == Deletions(crr, Delete(m, Victims(m, ds[j])), ds[j + 1..])
  {
    assert ds == ds[..j] + ds[j..] && ds[j..][0] == ds[j] && ds[j..][1..] == ds[j + 1..];
    DeletionsConcat(crr, db, ds[..j], ds[j..]);
  }

  /** Up to the relationship of `y`, both rows of the trap are there. */
  lemma TrapHolds(ds: seq<Deletion>, i: nat, j: nat, trap: Db, x: Key, xFk: Col, y: Key, yFk: Col, z: Key)
    requires OneEach(ds) && i <= j < |ds| && x != y && y.pk != z.pk
    requires trap == Trap(x, xFk, y, yFk, z) && x.table == ds[i].child && y.table == ds[j].child
    ensures var m := Deletions(ALL_TABLES, trap, ds[..j]); Progress(trap, m) && x in m.rows && y in m.rows
  {
    hide Progress, DeletionReady, Deletions, ALL_TABLES, Victims, Delete;
    NoProgressYet(trap);
    if i == j {
      OthersLeave(ALL_TABLES, trap, trap, ds[..j]);
    } else {
      var front := ds[..j];
      AllAreReady(ds[i]);
      OthersLeave(ALL_TABLES, trap, trap, front[..i]);
      var m := Deletions(ALL_TABLES, trap, front[..i]);
      LooksTooEarly(trap, m, x, xFk, y, yFk, z, ds[i]);
      DeleteMakesProgress(trap, m, ds[i]);
      OtherTable(m, ds[i], y);
      Remains(m, ds[i], x);
      Remains(m, ds[i], y);
      Split(ALL_TABLES, trap, front, i);
      OthersLeave(ALL_TABLES, trap, Delete(m, Victims(m, ds[i])), front[i + 1..]);
    }
  }

  lemma NoProgressYet(db: Db)
    ensures Progress(db, db)
  {
  }

  lemma OtherTable(db: Db, d: Deletion, k: Key)
    requires k.table != d.child
    ensures k !in Victims(db, d)
  {
  }

  lemma Remains(db: Db, d: Deletion, k: Key)
    requires k in db.rows && k !in Victims(db, d)
    ensures k in Delete(db, Victims(db, d)).rows
  {
  }

  /** Any list that is out of order leaves an orphan behind on some device. */
  lemma UnorderedLeavesOrphans(ds: seq<Deletion>) returns (db: Db)
    requires OneEach(ds) && !Ordered(ds)
    ensures !AllClean(ALL_TABLES, Deletions(ALL_TABLES, db, ds), ds)
  {
    hide Progress, DeletionReady, Deletions, ALL_TABLES, Victims, Delete, Trap;
    var i, j :| 0 <= i <= j < |ds| && IsParent(ds[i], ds[j].child);
    var l :| 0 <= l < |ds[i].links| && ds[i].links[l].parent == ds[j].child;
    var z := Key(ds[j].links[0].parent, 2);
    var y, yFk := Key(ds[j].child, 1), ds[j].links[0].fk;
    var x, xFk := Key(ds[i].child, 3), ds[i].links[l].fk;
    db := Trap(x, xFk, y, yFk, z);
    TrapHolds(ds, i, j, db, x, xFk, y, yFk, z);
    var m := Deletions(ALL_TABLES, db, ds[..j]);
    TakesY(db, m, x, xFk, y, yFk, z, ds[j]);
    if i == j {
      LooksTooEarly(db, m, x, xFk, y, yFk, z, ds[j]);
    } else {
      OtherTable(m, ds[j], x);
    }
    Remains(m, ds[j], x);
    AllAreReady(ds[j]);
    Split(ALL_TABLES, db, ds, j);
    DeleteMakesProgress(db, m, ds[j]);
    OthersLeave(ALL_TABLES, db, Delete(m, Victims(m, ds[j])), ds[j + 1..]);
    AllAreReady(ds[i]);
    var t := Deletions(ALL_TABLES, db, ds);
    assert x in t.rows && Deleted(t, y);
    StillRefers(db, t, x, xFk, y, yFk, z);
    assert RefersToDeleted(t, t.rows[x], ds[i].links[l]);
    assert !Clean(t, ds[i]);
  }

  lemma StillRefers(trap: Db, db: Db, x: Key, xFk: Col, y: Key, yFk: Col, z: Key)
    requires trap == Trap(x, xFk, y, yFk, z) && x != y && Progress(trap, db) && x in db.rows
    ensures db.rows[x] == map[xFk := y.pk]
  {
  }

  /** For lists of this kind, one pass is enough on every device exactly when every table is cleared
      before it is looked at as a parent. */
  lemma OrderIsExact(ds: seq<Deletion>)
    requires OneEach(ds)
    ensures Ordered(ds) <==> forall crr, db :: AllClean(crr, Deletions(crr, db, ds), ds)
  {
    hide Deletions, AllClean, Progress;
    if Ordered(ds) {
      assert [] + ds == ds;
      forall crr, db ensures AllClean(crr, Deletions(crr, db, ds), ds) {
        NoProgressYet(db);
        NothingDone(crr, db);
        DeletionsClean(crr, db, db, [], ds);
      }
    } else {
      var db := UnorderedLeavesOrphans(ds);
    }
  }

  lemma ParentsInList(d: Deletion, t: Table)
    requires d in DELETIONS && IsParent(d, t)
    ensures t == Sessions || t == Folders || t == Tags || (t == Notes && d.child == NoteVersions)
  {
    var i :| 0 <= i < |DELETIONS| && DELETIONS[i] == d;
    assert d == if i < 6 then CASCADE_DELETE[i] else CASCADE_JUNCTION[i - 6];
  }

  lemma ChildrenInList(d: Deletion)
    requires d in DELETIONS
    ensures d.child != Sessions && d.child != Folders && d.child != Tags
    ensures d.child == NoteVersions ==> IsParent(d, Notes)
  {
    var i :| 0 <= i < |DELETIONS| && DELETIONS[i] == d;
    assert d == if i < 6 then CASCADE_DELETE[i] else CASCADE_JUNCTION[i - 6];
    if i == 2 { assert d.links[0].parent == Notes; }
  }

  /** In the program's list only note versions look at a table that the list also clears. */
  lemma OnlyNotesAreBoth(d: Deletion, e: Deletion)
    requires d in DELETIONS && e in DELETIONS
    ensures IsParent(d, e.child) <==> d.child == NoteVersions && e.child == Notes
  {
    hide DELETIONS;
    ChildrenInList(d);
    ChildrenInList(e);
    if IsParent(d, e.child) {
      ParentsInList(d, e.child);
    }
  }

  lemma {:induction false} TwiceIn(ds: seq<Deletion>, i: nat, j: nat)
    requires i < j < |ds| && ds[i] == ds[j]
    ensures multiset(ds)[ds[i]] >= 2
  {
    assert ds == ds[..j] + [ds[j]] + ds[j + 1..];
    assert ds[i] == ds[..j][i] && ds[i] in multiset(ds[..j]);
  }

  lemma OnceIn(ds: seq<Deletion>, d: Deletion)
    requires OneEach(ds) && d in ds
    ensures multiset(ds)[d] == 1
  {
    var i :| 0 <= i < |ds| && ds[i] == d;
    var before, after := ds[..i], ds[i + 1..];
    assert ds == before + [d] + after;
    forall k | 0 <= k < |before| ensures before[k] != d { assert before[k] == ds[k]; }
    forall k | 0 <= k < |after| ensures after[k] != d { assert after[k] == ds[i + 1 + k]; }
    assert d !in before && d !in after;
  }

  /** A reordering of the program's list has one relationship per child table too. */
  lemma ReorderedHasOneEach(ds: seq<Deletion>)
    requires multiset(ds) == multiset(DELETIONS)
    ensures OneEach(ds) && forall i :: 0 <= i < |ds| ==> ds[i] in DELETIONS
  {
    hide DELETIONS;
    ListHasOneEach();
    forall i | 0 <= i < |ds| ensures ds[i] in DELETIONS && ds[i].links != [] {
      assert ds[i] in multiset(ds);
    }
    forall i, j | 0 <= i < j < |ds| ensures ds[i].child != ds[j].child {
      if ds[i] == ds[j] {
        TwiceIn(ds, i, j);
        OnceIn(DELETIONS, ds[i]);
      } else {
        var k :| 0 <= k < |DELETIONS| && DELETIONS[k] == ds[i];
        var l :| 0 <= l < |DELETIONS| && DELETIONS[l] == ds[j];
      }
    }
  }

  /** Nowhere in the list do note versions come before notes. */
  predicate NotesFirst(ds: seq<Deletion>) {
    forall i, j :: 0 <= i < j < |ds| ==> !(ds[i].child == NoteVersions && ds[j].child == Notes)
  }

  /** Of all orders of the program's list exactly those are right, on every device, that clear notes
      before note versions. */
  lemma NotesFirstIsExact(ds: seq<Deletion>)
    requires multiset(ds) == multiset(DELETIONS)
    ensures NotesFirst(ds) <==> forall crr, db :: AllClean(crr, Deletions(crr, db, ds), ds)
  {
    hide DELETIONS, Deletions, AllClean, IsParent;
    ReorderedHasOneEach(ds);
    OrderIsExact(ds);
    forall i, j | 0 <= i < |ds| && 0 <= j < |ds|
      ensures IsParent(ds[i], ds[j].child) <==> ds[i].child == NoteVersions && ds[j].child == Notes
    {
      OnlyNotesAreBoth(ds[i], ds[j]);
    }
    assert Ordered(ds) <==> NotesFirst(ds);
  }

  /** The program's list clears notes first; any order that does not leaves a note version behind whose
      note it has deleted, on some device. */
  lemma OrderMatters(ds: seq<Deletion>) returns (db: Db)
    requires multiset(ds) == multiset(DELETIONS) && !NotesFirst(ds)
    ensures NotesFirst(DELETIONS) && !AllClean(ALL_TABLES, Deletions(ALL_TABLES, db, ds), ds)
  {
    hide DELETIONS, Deletions, AllClean, IsParent;
    ListIsOrdered();
    ReorderedHasOneEach(ds);
    ReorderedHasOneEach(DELETIONS);
    forall i, j | 0 <= i < j < |DELETIONS|
      ensures !(DELETIONS[i].child == NoteVersions && DELETIONS[j].child == Notes)
    {
      OnlyNotesAreBoth(DELETIONS[i], DELETIONS[j]);
    }
    var i, j :| 0 <= i < j < |ds| && ds[i].child == NoteVersions && ds[j].child == Notes;
    OnlyNotesAreBoth(ds[i], ds[j]);
    assert !Ordered(ds);
    db := UnorderedLeavesOrphans(ds);
  }

  lemma NothingDone(crr: set<Table>, db: Db)
    ensures AllClean(crr, db, [])
  {
  }

  // ---- The pass ---------------------------------------------------------------------------------------------

  datatype CascadeStats = CascadeStats(deleted: nat, nulled: nat, skipped: nat)

  /** Relationships of a list that name a table that is not converted here. */
  function UnreadyDeletions(crr: set<Table>, ds: seq<Deletion>): nat {
    if ds == [] then 0 else (if DeletionReady(crr, ds[0]) then 0 else 1) + UnreadyDeletions(crr, ds[1..])
  }

  function UnreadyNullings(crr: set<Table>, ns: seq<Nulling>): nat {
    if ns == [] then 0 else (if NullingReady(crr, ns[0]) then 0 else 1) + UnreadyNullings(crr, ns[1..])
  }

  /** The relationships that a pass skips on a device with these converted tables. */
  function Unready(crr: set<Table>): nat {
    UnreadyDeletions(crr, DELETIONS) + UnreadyNullings(crr, SET_NULL)
  }

  predicate AllReady(crr: set<Table>) {
    && (forall i :: 0 <= i < |DELETIONS| ==> DeletionReady(crr, DELETIONS[i]))
    && (forall i :: 0 <= i < |SET_NULL| ==> NullingReady(crr, SET_NULL[i]))
  }

  lemma {:induction false} NoneUnready(crr: set<Table>, ds: seq<Deletion>)
    ensures UnreadyDeletions(crr, ds) == 0 <==> forall i :: 0 <= i < |ds| ==> DeletionReady(crr, ds[i])
  {
    hide DeletionReady;
    if ds != [] {
      NoneUnready(crr, ds[1..]);
      if UnreadyDeletions(crr, ds) == 0 {
        forall i | 0 <= i < |ds| ensures DeletionReady(crr, ds[i]) {
          if i > 0 { assert ds[i] == ds[1..][i - 1]; }
        }
      }
    }
  }

  lemma {:induction false} NoneUnreadyNull(crr: set<Table>, ns: seq<Nulling>)
    ensures UnreadyNullings(crr, ns) == 0 <==> forall i :: 0 <= i < |ns| ==> NullingReady(crr, ns[i])
  {
    hide NullingReady;
    if ns != [] {
      NoneUnreadyNull(crr, ns[1..]);
      if UnreadyNullings(crr, ns) == 0 {
        forall i | 0 <= i < |ns| ensures NullingReady(crr, ns[i]) {
          if i > 0 { assert ns[i] == ns[1..][i - 1]; }
        }
      }
    }
  }

  /** Nothing is skipped exactly when every relationship can run. */
  lemma NothingSkippedIff(crr: set<Table>)
    ensures Unready(crr) == 0 <==> AllReady(crr)
  {
    hide DELETIONS, SET_NULL;
    NoneUnready(crr, DELETIONS);
    NoneUnreadyNull(crr, SET_NULL);
  }

  lemma {:induction false} UnreadyConcat(crr: set<Table>, a: seq<Deletion>, b: seq<Deletion>)
    ensures UnreadyDeletions(crr, a + b) == UnreadyDeletions(crr, a) + UnreadyDeletions(crr, b)
  {
    if a == [] {
      assert a + b == b;
    } else {
      assert (a + b)[1..] == a[1..] + b;
      UnreadyConcat(crr, a[1..], b);
    }
  }

  /** References cleared by a list of relationships. */
  function NulledBy(crr: set<Table>, db: Db, ns: seq<Nulling>): nat
    decreases |ns|
  {
    if ns == [] then 0
    else if NullingReady(crr, ns[0]) then
      |Dangling(db, ns[0])| + NulledBy(crr, Null(db, Dangling(db, ns[0]), ns[0].link.fk), ns[1..])
    else NulledBy(crr, db, ns[1..])
  }

  /** All the references there are. */
  ghost function References(db: Db): set<(Key, Col)> {
    set k, c | k in db.rows && c in db.rows[k] :: (k, c)
  }

  lemma {:induction false} Paired(keys: set<Key>, c: Col)
    ensures |set k | k in keys :: (k, c)| == |keys|
    decreases |keys|
  {
    var pairs := set k | k in keys :: (k, c);
    if keys == {} {
      assert pairs == {};
    } else {
      var k0 :| k0 in keys;
      Paired(keys - {k0}, c);
      assert pairs == (set k | k in keys - {k0} :: (k, c)) + {(k0, c)};
    }
  }

  lemma NullTakes(db: Db, n: Nulling)
    ensures |References(db)| == |References(Null(db, Dangling(db, n), n.link.fk))| + |Dangling(db, n)|
  {
    var keys := Dangling(db, n);
    assert forall k :: k in keys ==> k in db.rows && n.link.fk in db.rows[k];
    hide Dangling;
    TakenFrom(db, keys, n.link.fk);
    Paired(keys, n.link.fk);
  }

  lemma TakenFrom(db: Db, keys: set<Key>, c: Col)
    requires forall k :: k in keys ==> k in db.rows && c in db.rows[k]
    ensures var t, gone := Null(db, keys, c), set k | k in keys :: (k, c);
            && References(db) == References(t) + gone && References(t) !! gone
            && |References(db)| == |References(t)| + |gone|
  {
    var t, gone := Null(db, keys, c), set k | k in keys :: (k, c);
    forall x: (Key, Col) ensures x in References(db) <==> x in References(t) || x in gone {
      assert x.0 in t.rows <==> x.0 in db.rows;
    }
    forall x: (Key, Col) ensures !(x in References(t) && x in gone) {
    }
    assert References(db) == References(t) + gone;
  }

  /** What the count of a pass means: as many references as there are fewer afterwards. */
  lemma {:induction false} NulledAreGone(crr: set<Table>, db: Db, ns: seq<Nulling>)
    ensures NulledBy(crr, db, ns) == |References(db)| - |References(Nullings(crr, db, ns))|
    decreases |ns|
  {
    hide Dangling, NullingReady;
    if ns != [] {
      if NullingReady(crr, ns[0]) {
        NullTakes(db, ns[0]);
        NulledAreGone(crr, Null(db, Dangling(db, ns[0]), ns[0].link.fk), ns[1..]);
      } else {
        NulledAreGone(crr, db, ns[1..]);
      }
    }
  }

  lemma DeleteCounts(db: Db, d: Deletion)
    ensures |Delete(db, Victims(db, d)).rows| == |db.rows| - |Victims(db, d)|
  {
    var t, v := Delete(db, Victims(db, d)), Victims(db, d);
    assert t.rows.Keys == db.rows.Keys - v;
    assert v <= db.rows.Keys;
    assert |db.rows.Keys - v| == |db.rows.Keys| - |v|;
  }

  /** The tables on this device, and which of them are converted. */
  class Database {
    var db: Db
    const crr: set<Table>

    constructor (d: Db, converted: set<Table>)
      ensures db == d && crr == converted
    {
      db, crr := d, converted;
    }

    /** One relationship whose children are deleted. */
    method DeleteChildren(d: Deletion, stats: CascadeStats) returns (next: CascadeStats)
      modifies this`db
      ensures db == if DeletionReady(crr, d) then Delete(old(db), Victims(old(db), d)) else old(db)
      ensures next.skipped == stats.skipped + (if DeletionReady(crr, d) then 0 else 1)
      ensures next.deleted + |db.rows| == stats.deleted + |old(db).rows| && next.nulled == stats.nulled
    {
      if !DeletionReady(crr, d) { return stats.(skipped := stats.skipped + 1); }
      var victims := Victims(db, d);
      DeleteCounts(db, d);
      db := Delete(db, victims);
      next := stats.(deleted := stats.deleted + |victims|);
    }

    /** Every relationship of a list, in order. */
    method DeleteAll(ds: seq<Deletion>, start: CascadeStats) returns (stats: CascadeStats)
      modifies this`db
      ensures db == Deletions(crr, old(db), ds)
      ensures stats.deleted + |db.rows| == start.deleted + |old(db).rows| && stats.nulled == start.nulled
      ensures stats.skipped == start.skipped + UnreadyDeletions(crr, ds)
    {
      hide Delete, Victims, DeletionReady;
      stats := start;
      assert ds[0..] == ds;
      for i := 0 to |ds|
        invariant Deletions(crr, db, ds[i..]) == Deletions(crr, old(db), ds)
        invariant stats.deleted + |db.rows| == start.deleted + |old(db).rows| && stats.nulled == start.nulled
        invariant stats.skipped + UnreadyDeletions(crr, ds[i..]) == start.skipped + UnreadyDeletions(crr, ds)
      {
        assert ds[i..][0] == ds[i] && ds[i..][1..] == ds[i + 1..];
        stats := DeleteChildren(ds[i], stats);
      }
    }

    method NullAll(ns: seq<Nulling>, start: CascadeStats) returns (stats: CascadeStats)
      requires start.nulled == 0
      modifies this`db
      ensures db == Nullings(crr, old(db), ns) && stats.nulled == NulledBy(crr, old(db), ns)
      ensures |db.rows| == |old(db).rows| && stats.deleted == start.deleted
      ensures stats.skipped == start.skipped + UnreadyNullings(crr, ns)
    {
      hide Dangling, NullingReady;
      stats := start;
      assert ns[0..] == ns;
      for i := 0 to |ns|
        invariant Nullings(crr, db, ns[i..]) == Nullings(crr, old(db), ns)
        invariant stats.nulled + NulledBy(crr, db, ns[i..]) == NulledBy(crr, old(db), ns)
        invariant |db.rows| == |old(db).rows| && stats.deleted == start.deleted
        invariant stats.skipped + UnreadyNullings(crr, ns[i..]) == start.skipped + UnreadyNullings(crr, ns)
      {
        var n := ns[i];
        assert ns[i..][0] == n && ns[i..][1..] == ns[i + 1..];
        if NullingReady(crr, n) {
          var dangling := Dangling(db, n);
          stats := stats.(nulled := stats.nulled + |dangling|);
          assert Null(db, dangling, n.link.fk).rows.Keys == db.rows.Keys;
          db := Null(db, dangling, n.link.fk);
        } else {
          stats := stats.(skipped := stats.skipped + 1);
        }
      }
    }

    /** The full pass. `skipped` counts the relationships that could not run here; zero means all could. */
    method CascadeGc() returns (stats: CascadeStats)
      modifies this`db
      ensures db == Pass(crr, old(db))
      ensures stats.deleted == |old(db).rows| - |db.rows|
      ensures stats.nulled == |References(Deletions(crr, old(db), DELETIONS))| - |References(db)|
      ensures stats.skipped == Unready(crr)
    {
      hide Deletions, Nullings, NulledBy, UnreadyDeletions, UnreadyNullings;
      DeletionsConcat(crr, db, CASCADE_DELETE, CASCADE_JUNCTION);
      UnreadyConcat(crr, CASCADE_DELETE, CASCADE_JUNCTION);
      stats := DeleteAll(CASCADE_DELETE, CascadeStats(0, 0, 0));
      stats := DeleteAll(CASCADE_JUNCTION, stats);
      NulledAreGone(crr, db, SET_NULL);
      stats := NullAll(SET_NULL, stats);
    }
  }

  lemma {:induction false} DeletionsConcat(crr: set<Table>, db: Db, a: seq<Deletion>, b: seq<Deletion>)
    ensures Deletions(crr, db, a + b) == Deletions(crr, Deletions(crr, db, a), b)
    decreases |a|
  {
    if a == [] {
      assert a + b == b;
    } else {
      assert (a + b)[1..] == a[1..] + b;
      DeletionsConcat(crr, if DeletionReady(crr, a[0]) then Delete(db, Victims(db, a[0])) else db, a[1..], b);
    }
  }
}
