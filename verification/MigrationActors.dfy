// What each actor comes to when nobody gets in its way, told of the database
// before and after.
module MigrationActors {
  import opened Text
  import opened Migration
  import opened MigrationRuns

  ghost function After(slug: Ref -> Table, w: World, t: nat, n: nat): World {
    if n == 0 then w else Step(slug, After(slug, w, t, n - 1), t, Go)
  }

  lemma AfterSteps(slug: Ref -> Table, w: World, t: nat)
    ensures After(slug, w, t, 1) == Step(slug, w, t, Go)
    ensures After(slug, w, t, 2) == Step(slug, After(slug, w, t, 1), t, Go)
    ensures After(slug, w, t, 3) == Step(slug, After(slug, w, t, 2), t, Go)
    ensures After(slug, w, t, 4) == Step(slug, After(slug, w, t, 3), t, Go)
  {
    hide Step;
    assert After(slug, w, t, 0) == w;
  }

  lemma Takes(slug: Ref -> Table, w: World, t: nat, c: Choice, a: Action, next: Proc)
    requires t in w.procs && Advance(slug, w.db, w.used, w.procs[t], c) == (a, next)
    ensures CanApply(w.db, a)
    ensures var v := Step(slug, w, t, c);
            v.db == Apply(w.db, a) && t in v.procs && v.procs[t] == next && (a.AIndex? || v.used == w.used)
  {
    StepIs(slug, w, t, c, a, next);
    hide Advance, Apply;
  }

  // A finished actor, and a read.
  lemma Rests(slug: Ref -> Table, db: Db, used: set<Chunk>, c: Choice)
    ensures Advance(slug, db, used, Done, c) == (ARead, Done)
    ensures Apply(db, ARead) == db
  {
  }

  // The row in progress, if there is one.
  ghost predicate InProgressIs(db: Db, id: nat) { AtMostOneRunning(db) && Running(db, id) && id < |db.migrations| }

  ghost predicate NoneInProgress(db: Db) { forall id: nat :: !Running(db, id) }

  lemma ActiveIdIs(db: Db, id: nat)
    requires InProgressIs(db, id)
    ensures ActiveId(db) == Some(id)
  {
  }

  // ---- lazy batches ----

  // One table has gained rows and its row in progress the credit for them;
  // nothing else is different.
  ghost predicate Gains(before: Db, after: Db, id: nat, rows: set<Chunk>)
    requires id < |before.migrations|
  {
    var m := before.migrations[id];
    && after.chunks == before.chunks && after.providers == before.providers
    && after.migrations == before.migrations[id := m.(lazy := m.lazy + |rows|)]
    && after.tables == if m.toTable in before.tables then before.tables[m.toTable := before.tables[m.toTable] + rows]
                       else before.tables
  }

  // Of the chunks a search touched, those the to-table lacks.
  function Lacking(db: Db, id: nat, ids: set<Chunk>): set<Chunk>
    requires id < |db.migrations|
  {
    var table := db.migrations[id].toTable;
    if table in db.tables then ids * db.chunks - db.tables[table] else {}
  }

  // They land there and are credited to the row, paused or not.
  lemma LazyLands(slug: Ref -> Table, w: World, t: nat, ids: set<Chunk>, id: nat)
    requires t in w.procs && w.procs[t] == LStart(ids) && InProgressIs(w.db, id)
    ensures Gains(w.db, After(slug, w, t, 3).db, id, Lacking(w.db, id, ids))
  {
    var m := w.db.migrations[id];
    AfterSteps(slug, w, t);
    LazyScript(slug, w.db, w.used, ids, id);
    Rests(slug, w.db, w.used, Go);
    var todo := Lacking(w.db, id, ids);
    assert todo != {} ==> m.toTable in w.db.tables;
    LazyRecords(w.db, id, todo);
    hide *;
    var w1, w2 := After(slug, w, t, 1), After(slug, w, t, 2);
    Takes(slug, w, t, Go, ARead, LFound(ids, id, m.toTable));
    if todo != {} {
      Takes(slug, w1, t, Go, ARead, LBatch(id, m.toTable, todo));
      Takes(slug, w2, t, Go, ARecord(id, m.toTable, todo, Lazy), Done);
    } else {
      Takes(slug, w1, t, Go, ARead, Done);
      Takes(slug, w2, t, Go, ARead, Done);
    }
  }

  lemma LazyScript(slug: Ref -> Table, db: Db, used: set<Chunk>, ids: set<Chunk>, id: nat)
    requires InProgressIs(db, id)
    ensures var table, todo := db.migrations[id].toTable, Lacking(db, id, ids); var found := LFound(ids, id, table);
            && Advance(slug, db, used, LStart(ids), Go) == (ARead, found)
            && (todo == {} ==> Advance(slug, db, used, found, Go) == (ARead, Done))
            && (todo != {} ==> Advance(slug, db, used, found, Go) == (ARead, LBatch(id, table, todo)))
            && (todo != {} ==>
                  Advance(slug, db, used, LBatch(id, table, todo), Go) == (ARecord(id, table, todo, Lazy), Done))
  {
    ActiveIdIs(db, id);
    var table := db.migrations[id].toTable;
    if table in db.tables {
      assert ids * Missing(db, table) == ids * db.chunks - db.tables[table];
    }
    hide ActiveId, AtMostOneRunning;
  }

  lemma LazyRecords(db: Db, id: nat, todo: set<Chunk>)
    requires id < |db.migrations| && todo <= db.chunks
    requires var table := db.migrations[id].toTable; if table in db.tables then todo !! db.tables[table] else todo == {}
    ensures todo != {} ==> Gains(db, Apply(db, ARecord(id, db.migrations[id].toTable, todo, Lazy)), id, todo)
    ensures todo == {} ==> Gains(db, db, id, todo)
  {
    assert db.migrations[id := db.migrations[id]] == db.migrations;
    var table := db.migrations[id].toTable;
    if table in db.tables {
      assert todo - db.tables[table] == todo;
      assert todo == {} ==> db.tables[table] + todo == db.tables[table];
      assert db.tables[table := db.tables[table]] == db.tables;
    }
  }

  // Outside a migration a lazy batch does nothing.
  lemma LazyRests(slug: Ref -> Table, w: World, t: nat, ids: set<Chunk>)
    requires t in w.procs && w.procs[t] == LStart(ids) && NoneInProgress(w.db)
    ensures After(slug, w, t, 3).db == w.db
  {
    AfterSteps(slug, w, t);
    hide Step, After;
    assert ActiveId(w.db) == None;
    Takes(slug, w, t, Go, ARead, Done);
    Rests(slug, w.db, w.used, Go);
    hide Advance, Apply;
    Takes(slug, After(slug, w, t, 1), t, Go, ARead, Done);
    Takes(slug, After(slug, w, t, 2), t, Go, ARead, Done);
  }

  // ---- index writes ----

  // The tables a write embeds into: the active provider's and, during a
  // migration, its to-table.
  ghost predicate Embeds(db: Db, ref: Ref, targets: set<Table>) {
    && ref in db.providers && db.providers[ref].active && AtMostOneActive(db)
    && ((NoneInProgress(db) && targets == {db.providers[ref].table})
        || (exists id: nat :: InProgressIs(db, id) && targets == {db.providers[ref].table, db.migrations[id].toTable}))
  }

  // A note's old chunks go from every table, its new ones come into exactly
  // those tables.
  lemma IndexLands(slug: Ref -> Table, w: World, t: nat, ref: Ref, targets: set<Table>, gone: set<Chunk>, born: set<Chunk>)
    requires t in w.procs && w.procs[t] == IStart && Embeds(w.db, ref, targets)
    requires born * w.used == {} && targets <= w.db.tables.Keys
    ensures var d := Step(slug, After(slug, w, t, 2), t, Ids(gone, born)).db;
            && d.chunks == w.db.chunks - gone + born && d.providers == w.db.providers && d.migrations == w.db.migrations
            && d.tables.Keys == w.db.tables.Keys
            && forall x | x in d.tables :: d.tables[x] == w.db.tables[x] - gone + if x in targets then born else {}
  {
    AfterSteps(slug, w, t);
    hide Step, After;
    IndexScript(slug, w.db, w.used, ref, targets, gone, born);
    Rests(slug, w.db, w.used, Go);
    hide *;
    Takes(slug, w, t, Go, ARead, IActive(w.db.providers[ref].table));
    Takes(slug, After(slug, w, t, 1), t, Go, ARead, ITargets(targets, ActiveId(w.db)));
    Takes(slug, After(slug, w, t, 2), t, Ids(gone, born), AIndex(gone, born, targets, ActiveId(w.db)), Done);
    IndexIs(w.db, gone, born, targets, ActiveId(w.db));
  }

  lemma IndexScript(slug: Ref -> Table, db: Db, used: set<Chunk>, ref: Ref, targets: set<Table>, gone: set<Chunk>,
                    born: set<Chunk>)
    requires Embeds(db, ref, targets) && born * used == {} && targets <= db.tables.Keys
    ensures Advance(slug, db, used, IStart, Go) == (ARead, IActive(db.providers[ref].table))
    ensures Advance(slug, db, used, IActive(db.providers[ref].table), Go) == (ARead, ITargets(targets, ActiveId(db)))
    ensures Advance(slug, db, used, ITargets(targets, ActiveId(db)), Ids(gone, born)) ==
            (AIndex(gone, born, targets, ActiveId(db)), Done)
  {
    assert ActiveRef(db) == Some(ref);
    if id: nat :| InProgressIs(db, id) && targets == {db.providers[ref].table, db.migrations[id].toTable} {
      ActiveIdIs(db, id);
    } else {
      assert ActiveId(db) == None;
    }
  }

  lemma IndexIs(db: Db, gone: set<Chunk>, born: set<Chunk>, targets: set<Table>, during: Option<nat>)
    ensures var d := Apply(db, AIndex(gone, born, targets, during));
            && d.chunks == db.chunks - gone + born && d.providers == db.providers && d.migrations == db.migrations
            && d.tables.Keys == db.tables.Keys
            && forall x | x in d.tables :: d.tables[x] == db.tables[x] - gone + if x in targets then born else {}
  {
  }

  // Without an active provider nothing is written at all.
  lemma IndexRefuses(slug: Ref -> Table, w: World, t: nat)
    requires t in w.procs && w.procs[t] == IStart && forall r | r in w.db.providers :: !w.db.providers[r].active
    ensures var v := Step(slug, w, t, Go); v.db == w.db && t in v.procs && v.procs[t] == Done
  {
    assert ActiveRef(w.db) == None;
    Takes(slug, w, t, Go, ARead, Done);
    Rests(slug, w.db, w.used, Go);
    hide Step;
  }

  // A deletion takes its chunks out of every table.
  lemma DeletionLands(slug: Ref -> Table, w: World, t: nat, gone: set<Chunk>, born: set<Chunk>)
    requires t in w.procs && w.procs[t] == DStart
    ensures var d := Step(slug, w, t, Ids(gone, born)).db;
            && d.chunks == w.db.chunks - gone && d.providers == w.db.providers && d.migrations == w.db.migrations
            && d.tables.Keys == w.db.tables.Keys && forall x | x in d.tables :: d.tables[x] == w.db.tables[x] - gone
  {
    Takes(slug, w, t, Ids(gone, born), ADelete(gone), Done);
    hide Step;
  }

  // ---- rollback ----

  // During a migration: the row is rolled back and no provider's flag moves.
  lemma RollbackEnds(slug: Ref -> Table, w: World, t: nat, id: nat)
    requires t in w.procs && w.procs[t] == RStart && InProgressIs(w.db, id)
    ensures var d := After(slug, w, t, 2).db;
            d == w.db.(migrations := w.db.migrations[id := w.db.migrations[id].(status := RolledBack)])
  {
    AfterSteps(slug, w, t);
    hide Step, After;
    ActiveIdIs(w.db, id);
    StepIs(slug, w, t, Go, ARead, RFinish(id));
    var w1 := After(slug, w, t, 1);
    StepIs(slug, w1, t, Go, AFinish(id, RolledBack), Done);
  }

  // After a completed one: its from-provider, and no other, is active again.
  // With nothing to roll back nothing changes.
  lemma RollbackReverts(slug: Ref -> Table, w: World, t: nat)
    requires t in w.procs && w.procs[t] == RStart && NoneInProgress(w.db)
    ensures var d, n := After(slug, w, t, 3).db, |w.db.migrations|;
            && d.chunks == w.db.chunks && d.tables == w.db.tables && d.migrations == w.db.migrations
            && d.providers.Keys == w.db.providers.Keys
            && if n > 0 && w.db.migrations[n - 1].status == Complete
               then forall r | r in d.providers ::
                      d.providers[r] == Provider(w.db.providers[r].table, r == w.db.migrations[n - 1].from)
               else d == w.db
  {
    AfterSteps(slug, w, t);
    hide Step, After;
    var n := |w.db.migrations|;
    RevertScript(slug, w.db, w.used);
    hide Advance;
    var w1, w2 := After(slug, w, t, 1), After(slug, w, t, 2);
    Rests(slug, w.db, w.used, Go);
    Takes(slug, w, t, Go, ARead, RLatest);
    if n > 0 && w.db.migrations[n - 1].status == Complete {
      var ref := w.db.migrations[n - 1].from;
      Takes(slug, w1, t, Go, ARead, RActivate(ref));
      Takes(slug, w2, t, Go, if w.db.providers == map[] then ARead else AActivate(ref), Done);
    } else {
      Takes(slug, w1, t, Go, ARead, Done);
      Takes(slug, w2, t, Go, ARead, Done);
    }
  }

  lemma RevertScript(slug: Ref -> Table, db: Db, used: set<Chunk>)
    requires NoneInProgress(db)
    ensures Advance(slug, db, used, RStart, Go) == (ARead, RLatest)
    ensures var n := |db.migrations|;
            Advance(slug, db, used, RLatest, Go) ==
            (ARead, if n > 0 && db.migrations[n - 1].status == Complete then RActivate(db.migrations[n - 1].from) else Done)
    ensures forall ref ::
              Advance(slug, db, used, RActivate(ref), Go) == (if db.providers == map[] then ARead else AActivate(ref), Done)
  {
    assert ActiveId(db) == None;
  }

  // ---- start ----

  predicate CanStart(slug: Ref -> Table, db: Db, from: Ref, to: Ref) {
    from != to && from in db.providers && forall r | r in db.providers && r != to :: db.providers[r].table != slug(to)
  }

  // One row is opened, running and owing every chunk, and the new provider is
  // there, inactive if it was not there before.
  ghost predicate Opened(slug: Ref -> Table, before: Db, after: Db, from: Ref, to: Ref) {
    && after.migrations == before.migrations + [Row(from, to, slug(to), InProgress, false, |before.chunks|, 0, 0)]
    && after.chunks == before.chunks
    && after.providers ==
       (if to in before.providers then before.providers else before.providers[to := Provider(slug(to), false)])
    && after.tables == (if slug(to) in before.tables then before.tables else before.tables[slug(to) := {}])
  }

  // A migration starts exactly when none is in progress, the providers differ,
  // the old one is registered and nobody else has the new one's table.
  lemma StartOpensIff(slug: Ref -> Table, w: World, t: nat, from: Ref, to: Ref)
    requires t in w.procs && w.procs[t] == SStart(from, to)
    ensures var d := After(slug, w, t, 4).db;
            if NoneInProgress(w.db) && CanStart(slug, w.db, from, to) then Opened(slug, w.db, d, from, to) else d == w.db
  {
    hide After, Step, Opened;
    if NoneInProgress(w.db) && CanStart(slug, w.db, from, to) {
      Starts(slug, w, t, from, to);
    } else {
      StartsNot(slug, w, t, from, to);
    }
  }

  lemma Starts(slug: Ref -> Table, w: World, t: nat, from: Ref, to: Ref)
    requires t in w.procs && w.procs[t] == SStart(from, to) && NoneInProgress(w.db) && CanStart(slug, w.db, from, to)
    ensures Opened(slug, w.db, After(slug, w, t, 4).db, from, to)
  {
    var total := |w.db.chunks|;
    var row := Row(from, to, slug(to), InProgress, false, total, 0, 0);
    AfterSteps(slug, w, t);
    StartScript(slug, w.db, w.used, from, to, total);
    OpenScript(slug, w.db, w.used, from, to, total);
    Rests(slug, w.db, w.used, Go);
    assert CanProvision(w.db, to, slug(to)) && from != to && from in w.db.providers;
    hide *;
    Takes(slug, w, t, Go, ARead, SChecked(from, to));
    Takes(slug, After(slug, w, t, 1), t, Go, ARead, SReady(from, to, total));
    Takes(slug, After(slug, w, t, 2), t, Go, AProvision(to, slug(to)), SProvisioned(from, to, total));
    Takes(slug, After(slug, w, t, 3), t, Go, AOpen(row), Done);
    OpenedIs(slug, w.db, from, to);
  }

  lemma OpenedIs(slug: Ref -> Table, db: Db, from: Ref, to: Ref)
    ensures var d := Apply(db, AProvision(to, slug(to)));
            Opened(slug, db, Apply(d, AOpen(Row(from, to, slug(to), InProgress, false, |db.chunks|, 0, 0))), from, to)
  {
  }

  lemma StartsNot(slug: Ref -> Table, w: World, t: nat, from: Ref, to: Ref)
    requires t in w.procs && w.procs[t] == SStart(from, to) && !(NoneInProgress(w.db) && CanStart(slug, w.db, from, to))
    ensures After(slug, w, t, 4).db == w.db
  {
    AfterSteps(slug, w, t);
    var total := |w.db.chunks|;
    StartScript(slug, w.db, w.used, from, to, total);
    hide Step, After, Advance, Apply, NoneInProgress;
    Rests(slug, w.db, w.used, Go);
    var w1, w2, w3 := After(slug, w, t, 1), After(slug, w, t, 2), After(slug, w, t, 3);
    if !NoneInProgress(w.db) || from == to {
      Takes(slug, w, t, Go, ARead, Done);
      Finished(slug, w1, t);
    } else {
      Takes(slug, w, t, Go, ARead, SChecked(from, to));
      Takes(slug, w1, t, Go, ARead, if from in w.db.providers then SReady(from, to, total) else Done);
      Takes(slug, w2, t, Go, ARead, Done);
      Takes(slug, w3, t, Go, ARead, Done);
    }
  }

  lemma StartScript(slug: Ref -> Table, db: Db, used: set<Chunk>, from: Ref, to: Ref, total: nat)
    requires total == |db.chunks|
    ensures Advance(slug, db, used, SStart(from, to), Go) ==
            (ARead, if from == to || !NoneInProgress(db) then Done else SChecked(from, to))
    ensures Advance(slug, db, used, SChecked(from, to), Go) ==
            (ARead, if from in db.providers then SReady(from, to, total) else Done)
    ensures Advance(slug, db, used, SReady(from, to, total), Go) ==
            if CanProvision(db, to, slug(to)) then (AProvision(to, slug(to)), SProvisioned(from, to, total))
            else (ARead, Done)
  {
    assert ActiveId(db).None? <==> NoneInProgress(db);
  }

  lemma OpenScript(slug: Ref -> Table, db: Db, used: set<Chunk>, from: Ref, to: Ref, total: nat)
    requires NoneInProgress(db)
    ensures Advance(slug, Apply(db, AProvision(to, slug(to))), used, SProvisioned(from, to, total), Go) ==
            (AOpen(Row(from, to, slug(to), InProgress, false, total, 0, 0)), Done)
  {
    var d := Provision(db, to, slug(to));
    assert forall id: nat :: Running(d, id) == Running(db, id);
    assert ActiveId(d).None?;
  }

  lemma Finished(slug: Ref -> Table, w: World, t: nat)
    requires t in w.procs && w.procs[t] == Done
    ensures var w1 := Step(slug, w, t, Go); var w2 := Step(slug, w1, t, Go); var w3 := Step(slug, w2, t, Go);
            w1.db == w.db && w2.db == w.db && w3.db == w.db
  {
    hide Step;
    StepIs(slug, w, t, Go, ARead, Done);
    var w1 := Step(slug, w, t, Go);
    StepIs(slug, w1, t, Go, ARead, Done);
    StepIs(slug, Step(slug, w1, t, Go), t, Go, ARead, Done);
  }

  // ---- prune ----

  // A provider is pruned exactly when it is registered, not active and on
  // neither side of a migration in progress; its table goes with it.
  lemma PruneDropsIff(slug: Ref -> Table, w: World, t: nat, ref: Ref)
    requires t in w.procs && w.procs[t] == XStart(ref) && AtMostOneActive(w.db) && AtMostOneRunning(w.db)
    ensures var d := After(slug, w, t, 3).db;
            if ref in w.db.providers && !w.db.providers[ref].active && !Migrating(w.db, ref)
            then d == w.db.(providers := w.db.providers - {ref}, tables := w.db.tables - {w.db.providers[ref].table})
            else d == w.db
  {
    AfterSteps(slug, w, t);
    hide Step, After;
    PruneScript(slug, w.db, w.used, ref);
    hide Advance;
    var w1, w2 := After(slug, w, t, 1), After(slug, w, t, 2);
    Rests(slug, w.db, w.used, Go);
    if ref in w.db.providers && w.db.providers[ref].active {
      Takes(slug, w, t, Go, ARead, Done);
      Finished(slug, w1, t);
    } else {
      Takes(slug, w, t, Go, ARead, XIdle(ref));
      if Migrating(w.db, ref) {
        Takes(slug, w1, t, Go, ARead, Done);
        Takes(slug, w2, t, Go, ARead, Done);
      } else {
        Takes(slug, w1, t, Go, ARead, XDrop(ref));
        Takes(slug, w2, t, Go, if ref in w.db.providers then ADrop(ref) else ARead, Done);
      }
    }
  }

  // On one side of the row in progress.
  ghost predicate Migrating(db: Db, ref: Ref) {
    exists id: nat :: Running(db, id) && (ref == db.migrations[id].from || ref == db.migrations[id].to)
  }

  lemma PruneScript(slug: Ref -> Table, db: Db, used: set<Chunk>, ref: Ref)
    requires AtMostOneActive(db) && AtMostOneRunning(db)
    ensures Advance(slug, db, used, XStart(ref), Go) ==
            (ARead, if ref in db.providers && db.providers[ref].active then Done else XIdle(ref))
    ensures Advance(slug, db, used, XIdle(ref), Go) == (ARead, if Migrating(db, ref) then Done else XDrop(ref))
    ensures Advance(slug, db, used, XDrop(ref), Go) == (if ref in db.providers then ADrop(ref) else ARead, Done)
  {
    ActiveRefIs(db, ref);
    MigratingIs(db, ref);
    hide ActiveRef, ActiveId, AtMostOneActive, AtMostOneRunning, Migrating, Running;
  }

  lemma MigratingIs(db: Db, ref: Ref)
    requires AtMostOneRunning(db)
    ensures var a := ActiveId(db);
            Migrating(db, ref) <==> a.Some? && ref in {db.migrations[a.value].from, db.migrations[a.value].to}
  {
    var a := ActiveId(db);
    assert a.Some? ==> Running(db, a.value);
  }

  lemma ActiveRefIs(db: Db, ref: Ref)
    requires AtMostOneActive(db)
    ensures ActiveRef(db) == Some(ref) <==> ref in db.providers && db.providers[ref].active
  {
  }

  // ---- a daemon's start ----

  // Its provider is registered if its table is free, and then is the one that is
  // active.
  lemma BootActivates(slug: Ref -> Table, w: World, t: nat, ref: Ref)
    requires t in w.procs && w.procs[t] == BStart(ref)
    ensures var d := After(slug, w, t, 1).db;
            && d.chunks == w.db.chunks && d.migrations == w.db.migrations
            && if forall r | r in w.db.providers && r != ref :: w.db.providers[r].table != slug(ref) then
                 && ref in d.providers && d.providers.Keys == w.db.providers.Keys + {ref}
                 && (forall r | r in d.providers :: d.providers[r].active <==> r == ref)
                 && (forall r | r in w.db.providers :: d.providers[r].table == w.db.providers[r].table)
                 && (ref !in w.db.providers ==> d.providers[ref].table == slug(ref))
                 && d.tables == (if slug(ref) in w.db.tables then w.db.tables else w.db.tables[slug(ref) := {}])
               else d == w.db
  {
    AfterSteps(slug, w, t);
    hide Step, After;
    if CanProvision(w.db, ref, slug(ref)) {
      StepIs(slug, w, t, Go, ABoot(ref, slug(ref)), Done);
    } else {
      StepIs(slug, w, t, Go, ARead, Done);
    }
  }

  // ---- unanswered lookups ----

  // Where the code takes a failed lookup for "there is none", it goes on as if
  // there were none; anywhere else the failure makes no difference here.
  lemma UnansweredIsNone(slug: Ref -> Table, db: Db, used: set<Chunk>, p: Proc)
    ensures Advance(slug, db, used, p, Mute) ==
            match p
            case IActive(_) => Advance(slug, db.(migrations := []), used, p, Go)
            case RStart => Advance(slug, db.(migrations := []), used, p, Go)
            case SStart(_, _) => Advance(slug, db.(migrations := []), used, p, Go)
            case XStart(_) => Advance(slug, db.(providers := map[]), used, p, Go)
            case XIdle(_) => Advance(slug, db.(migrations := []), used, p, Go)
            case _ => Advance(slug, db, used, p, Go)
  {
    assert ActiveId(db.(migrations := [])) == None;
    assert ActiveRef(db.(providers := map[])) == None;
    hide Missing, MissingBatch, CanRecord, ActiveId, ActiveRef;
  }

  // A flip needs a provider to be registered, if not the one it names.
  lemma FlipIs(slug: Ref -> Table, w: World, t: nat, id: nat, to: Ref)
    requires t in w.procs && w.procs[t] == WFlip(id, to)
    ensures var v := Step(slug, w, t, Go);
            && v.db.chunks == w.db.chunks && v.db.tables == w.db.tables && v.db.migrations == w.db.migrations
            && v.db.providers.Keys == w.db.providers.Keys
            && (forall r | r in v.db.providers :: v.db.providers[r] == Provider(w.db.providers[r].table, r == to))
            && t in v.procs && v.procs[t] == if w.db.providers == map[] then WIdle else WFinish(id)
  {
    if w.db.providers == map[] {
      Takes(slug, w, t, Go, ARead, WIdle);
    } else {
      Takes(slug, w, t, Go, AActivate(to), WFinish(id));
    }
    hide Step;
  }
}
