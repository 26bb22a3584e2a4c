// Indexing a batch, relinking it, repairing its referrers and applying
// deletions brings stored edges back to what the audit recomputes.
module LinkRepair {
  import opened Text
  import opened LinkGraph

  ghost predicate Distinct(batch: seq<Note>) {
    forall i, j | 0 <= i < j < |batch| :: batch[i].path != batch[j].path && batch[i].row.id != batch[j].row.id
  }

  function BatchIds(batch: seq<Note>): set<Id> {
    set i | 0 <= i < |batch| :: batch[i].row.id
  }

  // An indexed row whose path or id a batch note takes over.
  predicate Disturbed(rows: map<Path, Row>, done: seq<Note>, p: Path) {
    p in rows && (p in Paths(done) || rows[p].id in BatchIds(done))
  }

  // ---- the first pass ----

  ghost predicate RowsAre(rows: map<Path, Row>, done: seq<Note>, after: map<Path, Row>) {
    && (forall i | 0 <= i < |done| :: done[i].path in after && after[done[i].path] == done[i].row)
    && (forall p | p !in Paths(done) :: p in after <==> p in rows && rows[p].id !in BatchIds(done))
    && (forall p | p !in Paths(done) && p in after :: after[p] == rows[p])
  }

  // Notes outside the batch lose at most edges to disturbed notes.
  ghost predicate EdgesKept(ix: Ix, done: seq<Note>, after: Ix) {
    forall p | p in after.rows && p !in Paths(done) && p in ix.rows ::
      var src := ix.rows[p].id;
      && Out(after.links, src) <= Out(ix.links, src)
      && forall d | d in Out(ix.links, src) && d !in Out(after.links, src) ::
           exists q :: Disturbed(ix.rows, done, q) && ix.rows[q].id == d
  }

  lemma PathsSnoc(done: seq<Note>, n: Note)
    ensures Paths(done + [n]) == Paths(done) + {n.path}
    ensures BatchIds(done + [n]) == BatchIds(done) + {n.row.id}
  {
    var all := done + [n];
    assert all[|done|] == n;
    forall p | p in Paths(done) ensures p in Paths(all) {
      var i :| 0 <= i < |done| && done[i].path == p;
      assert all[i] == done[i];
    }
    forall d | d in BatchIds(done) ensures d in BatchIds(all) {
      var i :| 0 <= i < |done| && done[i].row.id == d;
      assert all[i] == done[i];
    }
  }

  lemma OneMoreRow(rows: map<Path, Row>, done: seq<Note>, before: map<Path, Row>, n: Note)
    requires RowsAre(rows, done, before) && Distinct(done + [n])
    ensures RowsAre(rows, done + [n], Upsert(before, n))
  {
    var all := done + [n];
    PathsSnoc(done, n);
    forall i | 0 <= i < |done| ensures all[i] == done[i] && done[i].path != n.path && done[i].row.id != n.row.id {
      assert all[i] == done[i] && all[|done|] == n;
    }
    forall i | 0 <= i < |all| ensures all[i].path in Upsert(before, n) && Upsert(before, n)[all[i].path] == all[i].row {
      if i < |done| {
        assert done[i].path in before;
      }
    }
  }

  lemma NewPath(done: seq<Note>, n: Note)
    requires Distinct(done + [n])
    ensures n.path !in Paths(done) && n.row.id !in BatchIds(done)
  {
    forall i | 0 <= i < |done| ensures done[i].path != n.path && done[i].row.id != n.row.id {
      assert (done + [n])[i] == done[i] && (done + [n])[|done|] == n;
    }
  }

  // An outside note's edge goes missing only when its target is evicted.
  lemma OneEdgeLost(before: Ix, n: Note, p: Path, d: Id)
    requires WellFormed(before) && IndexNote(before, n).Some?
    requires p in before.rows && p != n.path && before.rows[p].id != n.row.id
    ensures var after := IndexNote(before, n).value; var src := before.rows[p].id;
            d in Out(after.links, src) <==> d in Out(before.links, src) && Evicted(before.rows, n) != Some(d)
  {
    var src := before.rows[p].id;
    assert Evicted(before.rows, n) != Some(src);
    assert d in Out(before.links, src) <==> (src, d) in before.links;
    var after := IndexNote(before, n).value;
    assert d in Out(after.links, src) <==> (src, d) in after.links;
  }

  lemma OneMoreEdges(ix: Ix, done: seq<Note>, before: Ix, n: Note)
    requires RowsAre(ix.rows, done, before.rows) && EdgesKept(ix, done, before) && Distinct(done + [n])
    requires WellFormed(before) && IndexNote(before, n).Some?
    ensures EdgesKept(ix, done + [n], IndexNote(before, n).value)
  {
    var after := IndexNote(before, n).value;
    PathsSnoc(done, n);
    NewPath(done, n);
    forall p | p in after.rows && p !in Paths(done + [n]) && p in ix.rows
      ensures Out(after.links, ix.rows[p].id) <= Out(ix.links, ix.rows[p].id)
      ensures forall d | d in Out(ix.links, ix.rows[p].id) && d !in Out(after.links, ix.rows[p].id) ::
                exists q :: Disturbed(ix.rows, done + [n], q) && ix.rows[q].id == d
    {
      var src := ix.rows[p].id;
      assert p in before.rows && before.rows[p] == ix.rows[p] && src != n.row.id;
      forall d | d in Out(after.links, src) ensures d in Out(ix.links, src) {
        OneEdgeLost(before, n, p, d);
      }
      forall d | d in Out(ix.links, src) && d !in Out(after.links, src)
        ensures exists q :: Disturbed(ix.rows, done + [n], q) && ix.rows[q].id == d
      {
        OneEdgeLost(before, n, p, d);
        if d in Out(before.links, src) {
          assert Disturbed(ix.rows, done + [n], n.path);
        } else {
          var q :| Disturbed(ix.rows, done, q) && ix.rows[q].id == d;
          assert Disturbed(ix.rows, done + [n], q);
        }
      }
    }
  }

  lemma IndexKeepsWellFormed(ix: Ix, n: Note)
    requires WellFormed(ix) && IndexNote(ix, n).Some?
    ensures WellFormed(IndexNote(ix, n).value)
  {
    var after := IndexNote(ix, n).value;
    var evicted := Evicted(ix.rows, n);
    forall d | d in Ids(ix.rows) && evicted != Some(d) ensures d in Ids(after.rows) {
      var p :| p in ix.rows && ix.rows[p].id == d;
      assert if d == n.row.id then after.rows[n.path].id == d else after.rows[p].id == d;
    }
    assert after.rows[n.path].id == n.row.id;
    forall d | d in Want(ix.rows, n.row) ensures d in Ids(ix.rows) {
      var key :| key in Keys(n.row) && Resolve(ix.rows, key) == Some(d);
      var p :| IsFirst(ix.rows, p, key) && ix.rows[p].id == d;
    }
  }

  // What the first pass leaves behind.
  ghost predicate Indexed(ix: Ix, batch: seq<Note>, after: Ix, done: seq<Note>) {
    && WellFormed(after) && Distinct(done) && RowsAre(ix.rows, done, after.rows) && EdgesKept(ix, done, after)
    && (forall m | m in done :: m in batch)
    && (|done| == 0 ==> after == ix)
    && (|done| == 1 ==> IndexNote(ix, done[0]) == Some(after))
  }

  lemma StillDistinct(batch: seq<Note>, done: seq<Note>)
    requires batch != [] && Distinct(batch) && Distinct(done)
    requires forall m | m in done :: m in batch[..|batch| - 1]
    ensures Distinct(done + [batch[|batch| - 1]])
  {
    var k := |batch| - 1;
    forall i | 0 <= i < |done| ensures done[i].path != batch[k].path && done[i].row.id != batch[k].row.id {
      assert done[i] in done;
      var j :| 0 <= j < k && batch[j] == done[i];
    }
  }

  lemma {:induction false} BatchIndexed(ix: Ix, batch: seq<Note>)
    requires WellFormed(ix) && Distinct(batch)
    ensures Indexed(ix, batch, IndexBatch(ix, batch).0, IndexBatch(ix, batch).1)
  {
    if batch != [] {
      var k := |batch| - 1;
      var n := batch[k];
      BatchIndexed(ix, batch[..k]);
      var (before, done) := IndexBatch(ix, batch[..k]);
      if IndexNote(before, n).Some? {
        StillDistinct(batch, done);
        IndexKeepsWellFormed(before, n);
        OneMoreRow(ix.rows, done, before.rows, n);
        OneMoreEdges(ix, done, before, n);
      }
    }
  }

  // ---- relinking ----

  lemma RelinkSets(ix: Ix, paths: set<Path>, p: Path)
    requires WellFormed(ix) && p in ix.rows
    ensures var after := RelinkAll(ix, paths);
            Out(after.links, ix.rows[p].id) ==
            if p in paths then Want(ix.rows, ix.rows[p]) else Out(ix.links, ix.rows[p].id)
  {
    var after := RelinkAll(ix, paths);
    var src := ix.rows[p].id;
    forall d ensures d in Out(after.links, src) <==> (src, d) in after.links {
    }
    forall d ensures d in Out(ix.links, src) <==> (src, d) in ix.links {
    }
    if p in paths {
      forall d | d in Out(after.links, src) ensures d in Want(ix.rows, ix.rows[p]) {
        assert (src, d) in after.links;
      }
    } else {
      forall d ensures (src, d) in after.links <==> (src, d) in ix.links {
      }
    }
  }

  lemma WantIsKnown(rows: map<Path, Row>, row: Row, d: Id)
    requires d in Want(rows, row)
    ensures d in Ids(rows)
  {
    var key :| key in Keys(row) && Resolve(rows, key) == Some(d);
    var p :| IsFirst(rows, p, key) && rows[p].id == d;
  }

  lemma RelinkKeepsWellFormed(ix: Ix, paths: set<Path>)
    requires WellFormed(ix)
    ensures WellFormed(RelinkAll(ix, paths))
  {
    var after := RelinkAll(ix, paths);
    forall l | l in after.links ensures l.0 in Ids(ix.rows) && l.1 in Ids(ix.rows) {
      if l !in ix.links {
        var p :| p in paths && p in ix.rows && ix.rows[p].id == l.0 && l.1 in Want(ix.rows, ix.rows[p]);
        WantIsKnown(ix.rows, ix.rows[p], l.1);
      }
    }
  }

  // ---- what an unchanged note's references mean ----

  // A reference touches the batch if it names a disturbed row or a new one.
  predicate Touches(rows: map<Path, Row>, done: seq<Note>, key: string) {
    || (exists q | q in rows :: Disturbed(rows, done, q) && Hits(q, rows[q], key))
    || (exists i | 0 <= i < |done| :: Hits(done[i].path, done[i].row, key))
  }

  lemma NewHitTouches(rows: map<Path, Row>, done: seq<Note>, after: map<Path, Row>, p: Path, key: string)
    requires RowsAre(rows, done, after)
    ensures p in Paths(done) && HitsAt(after, p, key) ==> Touches(rows, done, key)
  {
    if p in Paths(done) {
      var i :| 0 <= i < |done| && done[i].path == p;
      assert after[p] == done[i].row;
    }
  }

  lemma UntouchedResolvesSame(rows: map<Path, Row>, done: seq<Note>, after: map<Path, Row>, key: string)
    requires RowsAre(rows, done, after) && !Touches(rows, done, key)
    ensures Resolve(rows, key) == Resolve(after, key)
  {
    forall p | HitsAt(rows, p, key) ensures HitsAt(after, p, key) && rows[p].id == after[p].id {
      assert !Disturbed(rows, done, p);
    }
    forall p | HitsAt(after, p, key) ensures HitsAt(rows, p, key) {
      NewHitTouches(rows, done, after, p, key);
    }
    SameHitsResolveSame(rows, after, key);
  }

  ghost predicate Untouched(rows: map<Path, Row>, done: seq<Note>, row: Row) {
    forall key | key in Keys(row) :: !Touches(rows, done, key)
  }

  lemma UntouchedWantsSame(rows: map<Path, Row>, done: seq<Note>, after: map<Path, Row>, row: Row)
    requires RowsAre(rows, done, after) && Untouched(rows, done, row)
    ensures Want(rows, row) == Want(after, row)
  {
    forall key | key in Keys(row) ensures Resolve(rows, key) == Resolve(after, key) {
      UntouchedResolvesSame(rows, done, after, key);
    }
  }

  // Its edges are all still there: none of them led to a disturbed note.
  lemma UntouchedKeepsEdges(ix: Ix, done: seq<Note>, after: Ix, p: Path)
    requires WellFormed(ix) && Clean(ix) && RowsAre(ix.rows, done, after.rows) && EdgesKept(ix, done, after)
    requires p in after.rows && p !in Paths(done) && Untouched(ix.rows, done, after.rows[p])
    ensures Out(after.links, after.rows[p].id) == Want(after.rows, after.rows[p])
  {
    var row := after.rows[p];
    assert p in ix.rows && ix.rows[p] == row && CleanAt(ix, p);
    UntouchedWantsSame(ix.rows, done, after.rows, row);
    forall d | d in Want(ix.rows, row) ensures d in Out(after.links, row.id) {
      DisturbedTargetTouches(ix, done, row, d);
    }
  }

  lemma DisturbedTargetTouches(ix: Ix, done: seq<Note>, row: Row, d: Id)
    requires WellFormed(ix) && d in Want(ix.rows, row)
    ensures (exists q :: Disturbed(ix.rows, done, q) && ix.rows[q].id == d) ==> !Untouched(ix.rows, done, row)
  {
    var key :| key in Keys(row) && Resolve(ix.rows, key) == Some(d);
    var first :| IsFirst(ix.rows, first, key) && ix.rows[first].id == d;
    if q :| Disturbed(ix.rows, done, q) && ix.rows[q].id == d {
      assert first == q;
      assert Touches(ix.rows, done, key);
    }
  }

  // ---- a batch of one is not relinked ----

  // A note that mentions its own name, old or new, shares it with no other.
  ghost predicate Alone(rows: map<Path, Row>, n: Note) {
    forall key, q | key in Keys(n.row) && Touches(rows, [n], key) && HitsAt(rows, q, key) ::
      rows[q].id == n.row.id || q == n.path
  }

  lemma OneIsEnough(ix: Ix, n: Note)
    requires WellFormed(ix) && IndexNote(ix, n).Some? && Alone(ix.rows, n)
    ensures var after := IndexNote(ix, n).value;
            Out(after.links, n.row.id) == Want(after.rows, n.row)
  {
    hide Keys;
    var after := IndexNote(ix, n).value;
    forall d ensures d in Out(after.links, n.row.id) <==> d in Want(ix.rows, n.row) {
      assert d in Out(after.links, n.row.id) <==> (n.row.id, d) in after.links;
    }
    forall key | key in Keys(n.row)
      ensures SameTarget(Resolve(ix.rows, key), Resolve(after.rows, key), n.row.id)
    {
      OneKey(ix, n, key);
    }
  }

  predicate SameTarget(a: Option<Id>, b: Option<Id>, self: Id) {
    a == b || ((a == None || a == Some(self)) && (b == None || b == Some(self)))
  }

  lemma OneIsBatch(rows: map<Path, Row>, n: Note)
    ensures RowsAre(rows, [n], Upsert(rows, n))
  {
    assert Paths([n]) == {n.path} by { assert [n][0] == n; }
    assert BatchIds([n]) == {n.row.id} by { assert [n][0] == n; }
  }

  lemma Wanted(rows: map<Path, Row>, row: Row, p: Path, key: string)
    requires key in Keys(row) && IsFirst(rows, p, key) && rows[p].id != row.id
    ensures rows[p].id in Want(rows, row)
  {
    var q :| IsFirst(rows, q, key) && rows[q].id == Resolve(rows, key).value;
    FirstIsUnique(rows, p, q, key);
  }

  lemma FirstIsNotEvicted(ix: Ix, n: Note, p: Path, key: string)
    requires IndexNote(ix, n).Some? && key in Keys(n.row) && IsFirst(ix.rows, p, key)
    ensures p == n.path ==> ix.rows[p].id == n.row.id
  {
    if ix.rows[p].id != n.row.id {
      Wanted(ix.rows, n.row, p, key);
    }
  }

  lemma OneKey(ix: Ix, n: Note, key: string)
    requires IndexNote(ix, n).Some? && Alone(ix.rows, n) && key in Keys(n.row)
    ensures SameTarget(Resolve(ix.rows, key), Resolve(IndexNote(ix, n).value.rows, key), n.row.id)
  {
    var after := Upsert(ix.rows, n);
    OneIsBatch(ix.rows, n);
    if !Touches(ix.rows, [n], key) {
      UntouchedResolvesSame(ix.rows, [n], after, key);
    } else {
      if Resolve(after, key).Some? {
        var q :| IsFirst(after, q, key) && after[q].id == Resolve(after, key).value;
        if q != n.path {
          assert HitsAt(ix.rows, q, key);
        }
      }
      if Resolve(ix.rows, key).Some? {
        var p :| IsFirst(ix.rows, p, key) && ix.rows[p].id == Resolve(ix.rows, key).value;
        FirstIsNotEvicted(ix, n, p, key);
      }
    }
  }

  // ---- the main result ----

  // Whoever refers to the batch does so in the form the reverse lookup finds.
  ghost predicate Seen(rows: map<Path, Row>, done: seq<Note>) {
    forall p | p in rows && !Disturbed(rows, done, p) && !Untouched(rows, done, rows[p]) :: Mentions(rows[p], Names(done))
  }

  // From a clean audit, after any batch in any order, relink and referrer repair
  // leave the audit clean -- duplicate basenames, qualifiers and renames included.
  lemma RepairRestores(ix: Ix, batch: seq<Note>)
    requires WellFormed(ix) && Clean(ix) && Distinct(batch)
    requires var done := IndexBatch(ix, batch).1; Seen(ix.rows, done) && (|done| == 1 ==> Alone(ix.rows, done[0]))
    ensures var (indexed, done) := IndexBatch(ix, batch); var repaired := Repair(indexed, done);
            WellFormed(repaired) && Clean(repaired) && repaired.rows == indexed.rows
  {
    var (indexed, done) := IndexBatch(ix, batch);
    BatchIndexed(ix, batch);
    var relinked := if |done| > 1 then RelinkAll(indexed, Paths(done)) else indexed;
    RelinkKeepsWellFormed(indexed, Paths(done));
    var repaired := Repair(indexed, done);
    RelinkKeepsWellFormed(relinked, Referrers(relinked, done));
    forall p | p in repaired.rows ensures CleanAt(repaired, p) {
      RelinkSets(indexed, Paths(done), p);
      RelinkSets(relinked, Referrers(relinked, done), p);
      if p in Paths(done) {
        if |done| == 1 {
          assert p == done[0].path;
          OneIsEnough(ix, done[0]);
        }
      } else if p !in Referrers(relinked, done) {
        assert !Disturbed(ix.rows, done, p);
        UntouchedKeepsEdges(ix, done, indexed, p);
      }
    }
  }

  // ---- deletions ----

  function AsPaths(gone: seq<Path>): set<Path> { set p | p in gone }

  function GoneIds(rows: map<Path, Row>, gone: set<Path>): set<Id> {
    set p | p in gone && p in rows :: rows[p].id
  }

  ghost predicate UniqueIds(rows: map<Path, Row>) {
    forall q, r | q in rows && r in rows && rows[q].id == rows[r].id :: q == r
  }

  // What the other notes of an index keep, whatever is deleted in which order.
  lemma {:induction false} DeleteAllIs(ix: Ix, gone: seq<Path>)
    requires WellFormed(ix)
    ensures var after := DeleteAll(ix, gone);
            && WellFormed(after) && after.rows == ix.rows - AsPaths(gone)
            && forall q | q in after.rows ::
                 Out(after.links, ix.rows[q].id) == Out(ix.links, ix.rows[q].id) - GoneIds(ix.rows, AsPaths(gone))
  {
    if gone == [] {
      assert AsPaths(gone) == {} && GoneIds(ix.rows, {}) == {};
      assert ix.rows - {} == ix.rows;
    } else {
      var init, p := gone[..|gone| - 1], gone[|gone| - 1];
      var before := DeleteAll(ix, init);
      DeleteAllIs(ix, init);
      DeleteKeepsWellFormed(before, p);
      assert gone == init + [p];
      assert AsPaths(gone) == AsPaths(init) + {p};
      assert ix.rows - AsPaths(gone) == ix.rows - AsPaths(init) - {p};
      forall q | q in DeleteAll(ix, gone).rows
        ensures Out(DeleteAll(ix, gone).links, ix.rows[q].id) ==
                Out(ix.links, ix.rows[q].id) - GoneIds(ix.rows, AsPaths(gone))
      {
        OneMoreGone(ix, before, AsPaths(init), p, q);
      }
    }
  }

  lemma OneMoreGone(ix: Ix, before: Ix, gone: set<Path>, p: Path, q: Path)
    requires WellFormed(ix) && WellFormed(before) && before.rows == ix.rows - gone && q in before.rows && q != p
    requires Out(before.links, ix.rows[q].id) == Out(ix.links, ix.rows[q].id) - GoneIds(ix.rows, gone)
    ensures Out(DeleteNote(before, p).links, ix.rows[q].id) ==
            Out(ix.links, ix.rows[q].id) - GoneIds(ix.rows, gone + {p})
  {
    if p in before.rows {
      OutAfterDelete(before, p, q);
      assert GoneIds(ix.rows, gone + {p}) == GoneIds(ix.rows, gone) + {ix.rows[p].id};
    } else {
      assert GoneIds(ix.rows, gone + {p}) == GoneIds(ix.rows, gone);
    }
  }

  // The note a key falls to when others are gone.
  ghost function Heir(rows: map<Path, Row>, gone: set<Path>, key: string): Option<Id> {
    Resolve(rows - gone, key)
  }

  // A key that meant no gone note means what it did.
  lemma ResolveWithout(rows: map<Path, Row>, gone: set<Path>, key: string)
    requires UniqueIds(rows)
    ensures Resolve(rows, key).None? || Resolve(rows, key).value !in GoneIds(rows, gone) ==>
              Resolve(rows - gone, key) == Resolve(rows, key)
    ensures Resolve(rows - gone, key).Some? ==> Resolve(rows - gone, key).value !in GoneIds(rows, gone)
  {
    var less := rows - gone;
    if Resolve(rows, key).Some? && Resolve(rows, key).value !in GoneIds(rows, gone) {
      var q :| IsFirst(rows, q, key) && rows[q].id == Resolve(rows, key).value;
      assert IsFirst(less, q, key) by {
        forall r | HitsAt(less, r, key) ensures HitsAt(rows, r, key) {}
      }
      var r :| IsFirst(less, r, key) && less[r].id == Resolve(less, key).value;
      FirstIsUnique(less, q, r, key);
    } else if Resolve(rows, key).None? {
      forall r ensures !HitsAt(less, r, key) {
        assert !HitsAt(rows, r, key);
      }
    }
  }

  // A reference of note q that meant a gone note falls to nobody, to q itself,
  // or to a note q is linked to anyway.
  ghost predicate Harmless(rows: map<Path, Row>, gone: set<Path>, q: Path, key: string)
    requires q in rows
  {
    var heir := Heir(rows, gone, key);
    heir == None || heir == Some(rows[q].id) || heir.value in Want(rows, rows[q])
  }

  // Every reference of note q that meant a gone note is harmless.
  ghost predicate Unharmed(rows: map<Path, Row>, gone: set<Path>, q: Path)
    requires q in rows
  {
    forall key | key in Keys(rows[q]) && Resolve(rows, key).Some? && Resolve(rows, key).value in GoneIds(rows, gone) ::
      Harmless(rows, gone, q, key)
  }

  lemma SurvivingWants(rows: map<Path, Row>, gone: set<Path>, q: Path)
    requires q in rows && UniqueIds(rows)
    ensures Want(rows, rows[q]) - GoneIds(rows, gone) <= Want(rows - gone, rows[q])
    ensures Want(rows - gone, rows[q]) !! GoneIds(rows, gone)
  {
    forall d | d in Want(rows, rows[q]) && d !in GoneIds(rows, gone) ensures d in Want(rows - gone, rows[q]) {
      var key :| key in Keys(rows[q]) && Resolve(rows, key) == Some(d);
      ResolveWithout(rows, gone, key);
    }
    forall key | key in Keys(rows[q])
      ensures Resolve(rows - gone, key).Some? ==> Resolve(rows - gone, key).value !in GoneIds(rows, gone)
    {
      ResolveWithout(rows, gone, key);
    }
  }

  // Deleting notes changes what another's content implies only by those notes
  // exactly when that other is unharmed.
  lemma WantAfterDeleteIff(rows: map<Path, Row>, gone: set<Path>, q: Path)
    requires q in rows && q !in gone && UniqueIds(rows)
    ensures Want(rows - gone, rows[q]) == Want(rows, rows[q]) - GoneIds(rows, gone) <==> Unharmed(rows, gone, q)
  {
    hide Keys;
    var less, row := rows - gone, rows[q];
    SurvivingWants(rows, gone, q);
    forall key | key in Keys(row) && Resolve(less, key).Some? && Resolve(less, key).value != row.id
      ensures Resolve(less, key).value in Want(less, row)
    {
    }
    if Unharmed(rows, gone, q) {
      forall d | d in Want(less, row) ensures d in Want(rows, row) {
        var key :| key in Keys(row) && Resolve(less, key) == Some(d);
        ResolveWithout(rows, gone, key);
      }
    }
  }

  lemma OutAfterDelete(ix: Ix, p: Path, q: Path)
    requires WellFormed(ix) && p in ix.rows && q in ix.rows && q != p
    ensures Out(DeleteNote(ix, p).links, ix.rows[q].id) == Out(ix.links, ix.rows[q].id) - {ix.rows[p].id}
  {
    var after, src := DeleteNote(ix, p), ix.rows[q].id;
    forall d ensures d in Out(after.links, src) <==> d in Out(ix.links, src) && d != ix.rows[p].id {
      assert (src, d) in after.links <==> (src, d) in ix.links && d != ix.rows[p].id;
    }
  }

  lemma DeleteKeepsWellFormed(ix: Ix, p: Path)
    requires WellFormed(ix)
    ensures WellFormed(DeleteNote(ix, p))
  {
    var after := DeleteNote(ix, p);
    forall d | d in Ids(ix.rows) && (p in ix.rows ==> d != ix.rows[p].id) ensures d in Ids(after.rows) {
      var r :| r in ix.rows && ix.rows[r].id == d;
      assert after.rows[r].id == d;
    }
  }

  // Any deletions, in any order, keep the audit clean exactly when every
  // reference that meant a deleted note is harmless once all of them are gone.
  lemma DeleteKeepsCleanIff(ix: Ix, gone: seq<Path>)
    requires WellFormed(ix) && Clean(ix)
    ensures Clean(DeleteAll(ix, gone)) <==>
            forall q | q in ix.rows && q !in gone :: Unharmed(ix.rows, AsPaths(gone), q)
  {
    var after := DeleteAll(ix, gone);
    DeleteAllIs(ix, gone);
    forall q | q in after.rows ensures CleanAt(after, q) <==> Unharmed(ix.rows, AsPaths(gone), q) {
      assert CleanAt(ix, q);
      WantAfterDeleteIff(ix.rows, AsPaths(gone), q);
    }
    assert forall q | q in ix.rows && q !in gone :: q in after.rows;
  }

  // The whole run, relink and repair having found every disturbed reference: it
  // restores the audit exactly when the deletions that end it are harmless to
  // the index the first pass left.
  lemma ReconcileRestoresIff(ix: Ix, batch: seq<Note>, gone: seq<Path>)
    requires WellFormed(ix) && Clean(ix) && Distinct(batch)
    requires var done := IndexBatch(ix, batch).1; Seen(ix.rows, done) && (|done| == 1 ==> Alone(ix.rows, done[0]))
    ensures var rows := IndexBatch(ix, batch).0.rows;
            Clean(Reconciled(ix, batch, gone)) <==>
              forall q | q in rows && q !in gone :: Unharmed(rows, AsPaths(gone), q)
  {
    var (indexed, done) := IndexBatch(ix, batch);
    RepairRestores(ix, batch);
    DeleteKeepsCleanIff(Repair(indexed, done), gone);
  }
}
