// The index's link operations as they run: lookups over the notes table in path
// order, edges replaced one note at a time, the audit's counting loops.
module LinkIndex {
  import opened Text
  import opened LinkGraph
  import opened LinkRepair

  lemma SmallestExists(s: set<Path>)
    requires s != {}
    ensures exists p :: p in s && forall q | q in s :: q == p || Less(p, q)
  {
    var m := Smallest(s);
  }

  // The first of the paths seen so far whose row carries a given name.
  ghost predicate FirstSeen(rows: map<Path, Row>, seen: set<Path>, p: Path, key: string) {
    p in seen && p in rows && Hits(p, rows[p], key) &&
    forall q | q in seen && q in rows && Hits(q, rows[q], key) :: q == p || Less(p, q)
  }

  ghost predicate Tracks(rows: map<Path, Row>, seen: set<Path>, found: map<string, Id>, key: string) {
    if key in found then exists p :: FirstSeen(rows, seen, p, key) && rows[p].id == found[key]
    else forall p | p in seen && p in rows :: !Hits(p, rows[p], key)
  }

  lemma TracksMore(rows: map<Path, Row>, seen: set<Path>, found: map<string, Id>, p: Path, found': map<string, Id>,
                   key: string)
    requires Tracks(rows, seen, found, key) && p in rows && p !in seen && forall q | q in seen :: Less(q, p)
    requires if Hits(p, rows[p], key) && key !in found then key in found' && found'[key] == rows[p].id
             else Get(found', key) == Get(found, key)
    ensures Tracks(rows, seen + {p}, found', key)
  {
    if key in found {
      var f :| FirstSeen(rows, seen, f, key) && rows[f].id == found[key];
      assert FirstSeen(rows, seen + {p}, f, key);
    } else if Hits(p, rows[p], key) {
      assert FirstSeen(rows, seen + {p}, p, key);
    }
  }

  lemma TracksAll(rows: map<Path, Row>, found: map<string, Id>, key: string)
    requires Tracks(rows, rows.Keys, found, key)
    ensures Get(found, key) == Resolve(rows, key)
  {
    if key in found {
      var p :| FirstSeen(rows, rows.Keys, p, key) && rows[p].id == found[key];
      assert IsFirst(rows, p, key);
      var q :| IsFirst(rows, q, key) && rows[q].id == Resolve(rows, key).value;
      FirstIsUnique(rows, p, q, key);
    } else {
      assert forall p :: !HitsAt(rows, p, key);
    }
  }

  class Index {
    var rows: map<Path, Row>
    var links: set<(Id, Id)>

    ghost function State(): Ix reads this { Ix(rows, links) }

    constructor ()
      ensures State() == Ix(map[], {})
    {
      rows, links := map[], {};
    }

    // One scan in path order fills a map by basename and one by project.
    method ResolveBasenames(names: set<string>) returns (out: map<string, Id>)
      ensures out.Keys <= names
      ensures forall key | key in names :: Get(out, key) == Resolve(rows, key)
    {
      hide Base, Resolve;
      var byBase: map<string, Id>, byQualified: map<string, Id> := map[], map[];
      var todo := rows.Keys;
      while todo != {}
        invariant todo <= rows.Keys
        invariant forall p, q | p in rows.Keys - todo && q in todo :: Less(p, q)
        invariant forall key | ':' !in key :: Tracks(rows, rows.Keys - todo, byBase, key)
        invariant forall key | ':' in key :: Tracks(rows, rows.Keys - todo, byQualified, key)
        decreases todo
      {
        SmallestExists(todo);
        var p :| p in todo && forall q | q in todo :: q == p || Less(p, q);
        var base, row := Base(p), rows[p];
        ghost var seen, oldBase, oldQualified := rows.Keys - todo, byBase, byQualified;
        if base !in byBase {
          byBase := byBase[base := row.id];
        }
        var qualified := row.project + ":" + base;
        if row.project != "" && qualified !in byQualified {
          byQualified := byQualified[qualified := row.id];
        }
        assert ':' in qualified by { assert qualified[|row.project|] == ':'; }
        todo := todo - {p};
        assert rows.Keys - todo == seen + {p};
        forall key | ':' !in key ensures Tracks(rows, seen + {p}, byBase, key) {
          TracksMore(rows, seen, oldBase, p, byBase, key);
        }
        forall key | ':' in key ensures Tracks(rows, seen + {p}, byQualified, key) {
          TracksMore(rows, seen, oldQualified, p, byQualified, key);
        }
      }
      assert rows.Keys - todo == rows.Keys;
      forall key | key in names
        ensures Get(if ':' in key then byQualified else byBase, key) == Resolve(rows, key)
      {
        TracksAll(rows, if ':' in key then byQualified else byBase, key);
      }
      out := map key | key in names && key in (if ':' in key then byQualified else byBase)
             :: (if ':' in key then byQualified else byBase)[key];
    }

    // linksFrom: a row's references against an already resolved map.
    static method LinksFrom(row: Row, resolved: map<string, Id>, ghost rows: map<Path, Row>) returns (out: set<Id>)
      requires forall key | key in Keys(row) :: Get(resolved, key) == Resolve(rows, key)
      ensures out == Want(rows, row)
    {
      out := {};
      var todo := Keys(row);
      while todo != {}
        invariant todo <= Keys(row)
        invariant forall key | key in Keys(row) && key !in todo && Resolve(rows, key).Some?
                  && Resolve(rows, key).value != row.id ::
                    Resolve(rows, key).value in out
        invariant out <= Want(rows, row)
        decreases todo
      {
        var key :| key in todo;
        assert Get(resolved, key) == Resolve(rows, key);
        if key in resolved && resolved[key] != row.id {
          out := out + {resolved[key]};
        }
        todo := todo - {key};
      }
    }

    method ResolveLinks(row: Row) returns (out: set<Id>)
      ensures out == Want(rows, row)
    {
      var resolved := ResolveBasenames(Keys(row));
      out := LinksFrom(row, resolved, rows);
    }

    // Resolve, then one transaction; a foreign key failure leaves all as it was.
    method IndexOne(n: Note) returns (ok: bool)
      modifies this
      ensures ok <==> IndexNote(old(State()), n).Some?
      ensures State() == if ok then IndexNote(old(State()), n).value else old(State())
    {
      var want := ResolveLinks(n.row);
      var evicted := Evicted(rows, n);
      if evicted.Some? && evicted.value in want {
        return false;
      }
      var kept := if evicted.Some? then Without(links, evicted.value) else links;
      rows, links := Upsert(rows, n), LinkGraph.SetLinks(kept, n.row.id, want);
      ok := true;
    }

    // Relink each of the notes at `paths`, in any order.
    method Relink(paths: set<Path>)
      requires WellFormed(State())
      modifies this
      ensures State() == RelinkAll(old(State()), paths)
    {
      ghost var start := State();
      var todo := paths * rows.Keys;
      RelinkNone(start);
      while todo != {}
        invariant todo <= paths * rows.Keys && rows == start.rows
        invariant State() == RelinkAll(start, paths * rows.Keys - todo)
        decreases todo
      {
        var p :| p in todo;
        var dsts := ResolveLinks(rows[p]);
        ghost var done := paths * rows.Keys - todo;
        RelinkOneMore(start, done, p);
        links := LinkGraph.SetLinks(links, rows[p].id, dsts);
        todo := todo - {p};
        assert paths * rows.Keys - todo == done + {p};
      }
      assert paths * rows.Keys - todo == paths * rows.Keys;
      RelinkKnown(start, paths);
    }

    // reconcile from its second phase on: index, relink, repair, delete.
    method Reconcile(batch: seq<Note>, gone: seq<Path>)
      requires WellFormed(State()) && Distinct(batch)
      modifies this
      ensures State() == Reconciled(old(State()), batch, gone)
    {
      hide RelinkAll, IndexNote, Mentions, Names, Without;
      ghost var start := State();
      var done: seq<Note> := [];
      for i := 0 to |batch|
        invariant (State(), done) == IndexBatch(start, batch[..i])
      {
        assert batch[..i + 1][..i] == batch[..i] && batch[..i + 1][i] == batch[i];
        var ok := IndexOne(batch[i]);
        if ok {
          done := done + [batch[i]];
        }
      }
      assert batch[..|batch|] == batch;
      BatchIndexed(start, batch);
      ghost var indexed := State();
      if |done| > 1 {
        Relink(Paths(done));
        RelinkKeepsWellFormed(indexed, Paths(done));
      }
      if |done| > 0 {
        var referrers := set p | p in rows && p !in Paths(done) && Mentions(rows[p], Names(done));
        Relink(referrers);
      } else {
        NobodyToRepair(State());
      }
      ghost var repaired := State();
      assert repaired == Repair(indexed, done);
      for i := 0 to |gone|
        invariant State() == DeleteAll(repaired, gone[..i])
      {
        assert gone[..i + 1][..i] == gone[..i] && gone[..i + 1][i] == gone[i];
        if gone[i] in rows {
          rows, links := rows - {gone[i]}, Without(links, rows[gone[i]].id);
        }
      }
      assert gone[..|gone|] == gone;
    }

    // One note's turn in the audit.
    method AuditNote(p: Path, resolved: map<string, Id>) returns (missing: nat, extra: nat)
      requires p in rows && forall key | key in Keys(rows[p]) :: Get(resolved, key) == Resolve(rows, key)
      ensures missing == |Diff(State(), true, p)| && extra == |Diff(State(), false, p)|
    {
      var want := LinksFrom(rows[p], resolved, rows);
      var have := set l | l in links && l.0 == rows[p].id :: l.1;
      assert have == Out(links, rows[p].id);
      missing, extra := |want - have|, |have - want|;
    }

    // Every basename resolved once, then each note's edges counted both ways.
    method CountGaps() returns (missing: nat, extra: nat)
      ensures missing == |Gaps(State(), true, rows.Keys)| && extra == |Gaps(State(), false, rows.Keys)|
    {
      ghost var ix := State();
      NoneCountedYet(ix);
      hide Diff, Gaps, Keys, Resolve;
      missing, extra := 0, 0;
      var names := AllKeys(rows);
      var resolved := ResolveBasenames(names);
      var todo, seen: set<Path> := rows.Keys, {};
      while todo != {}
        invariant seen + todo == ix.rows.Keys && seen !! todo
        invariant missing == |Gaps(ix, true, seen)| && extra == |Gaps(ix, false, seen)|
        decreases todo
      {
        var p :| p in todo;
        AllNamed(rows, p);
        var m, x := AuditNote(p, resolved);
        CountOneMore(ix, true, seen, p);
        CountOneMore(ix, false, seen, p);
        missing, extra := missing + m, extra + x;
        todo, seen := todo - {p}, seen + {p};
      }
      assert seen == ix.rows.Keys;
    }

    // AuditGraph: the counts, and OK exactly for a clean graph.
    method AuditGraph() returns (missing: nat, extra: nat)
      ensures missing == |Gaps(State(), true, rows.Keys)| && extra == |Gaps(State(), false, rows.Keys)|
      ensures missing == 0 && extra == 0 <==> Clean(State())
    {
      missing, extra := CountGaps();
      NoGapsIff(State());
    }
  }

  function AllKeys(rows: map<Path, Row>): set<string> {
    set p, key | p in rows && key in Keys(rows[p]) :: key
  }

  lemma AllNamed(rows: map<Path, Row>, p: Path)
    requires p in rows
    ensures Keys(rows[p]) <= AllKeys(rows)
  {
  }

  // A note's edges its content implies and the index lacks, or the reverse.
  ghost function Diff(ix: Ix, lost: bool, p: Path): set<Id>
    requires p in ix.rows
  {
    var want, have := Want(ix.rows, ix.rows[p]), Out(ix.links, ix.rows[p].id);
    if lost then want - have else have - want
  }

  ghost function Gaps(ix: Ix, lost: bool, paths: set<Path>): set<(Path, Id)> {
    set p, d | p in paths && p in ix.rows && d in Diff(ix, lost, p) :: (p, d)
  }

  ghost function Tagged(p: Path, ds: set<Id>): set<(Path, Id)> {
    set d | d in ds :: (p, d)
  }

  lemma {:induction false} TaggedCount(p: Path, ds: set<Id>)
    ensures |Tagged(p, ds)| == |ds|
  {
    if ds != {} {
      var d :| d in ds;
      TaggedCount(p, ds - {d});
      assert Tagged(p, ds) == Tagged(p, ds - {d}) + {(p, d)};
    }
  }

  lemma NoneCountedYet(ix: Ix)
    ensures Gaps(ix, true, {}) == {} && Gaps(ix, false, {}) == {}
  {
  }

  lemma CountOneMore(ix: Ix, lost: bool, seen: set<Path>, p: Path)
    requires p in ix.rows && p !in seen
    ensures |Gaps(ix, lost, seen + {p})| == |Gaps(ix, lost, seen)| + |Diff(ix, lost, p)|
  {
    hide Diff;
    TaggedCount(p, Diff(ix, lost, p));
    GapsGrow(ix, lost, seen, p);
    hide Gaps, Tagged;
  }

  lemma GapsGrow(ix: Ix, lost: bool, seen: set<Path>, p: Path)
    requires p in ix.rows && p !in seen
    ensures Gaps(ix, lost, seen + {p}) == Gaps(ix, lost, seen) + Tagged(p, Diff(ix, lost, p))
    ensures Gaps(ix, lost, seen) !! Tagged(p, Diff(ix, lost, p))
  {
    hide Diff;
    var before, more := Gaps(ix, lost, seen), Tagged(p, Diff(ix, lost, p));
    forall q, d ensures (q, d) in Gaps(ix, lost, seen + {p}) <==> (q, d) in before || (q, d) in more {
    }
  }

  lemma NoGapsIff(ix: Ix)
    ensures |Gaps(ix, true, ix.rows.Keys)| == 0 && |Gaps(ix, false, ix.rows.Keys)| == 0 <==> Clean(ix)
  {
    forall p, lost, d | p in ix.rows && d in Diff(ix, lost, p) ensures (p, d) in Gaps(ix, lost, ix.rows.Keys) {
    }
    forall p | p in ix.rows ensures CleanAt(ix, p) <==> Diff(ix, true, p) == {} && Diff(ix, false, p) == {} {
      var want, have := Want(ix.rows, ix.rows[p]), Out(ix.links, ix.rows[p].id);
      assert want - have == {} && have - want == {} ==> want <= have && have <= want;
    }
  }

  lemma RelinkNone(ix: Ix)
    ensures RelinkAll(ix, {}) == ix
  {
  }

  lemma NobodyToRepair(ix: Ix)
    ensures RelinkAll(ix, Referrers(ix, [])) == ix
  {
    assert Names([]) == {};
    assert Referrers(ix, []) == {};
  }

  lemma RelinkKnown(ix: Ix, paths: set<Path>)
    ensures RelinkAll(ix, paths * ix.rows.Keys) == RelinkAll(ix, paths)
  {
  }

  lemma RelinkOneMore(ix: Ix, done: set<Path>, p: Path)
    requires WellFormed(ix) && p in ix.rows && p !in done
    ensures RelinkAll(ix, done + {p}).links ==
            LinkGraph.SetLinks(RelinkAll(ix, done).links, ix.rows[p].id, Want(ix.rows, ix.rows[p]))
  {
  }
}
