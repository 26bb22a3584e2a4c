// Runs of a fresh daemon on an empty vault that break what a reader of the
// migration code would expect.
module MigrationScenarios {
  import opened Text
  import opened Migration
  import opened MigrationRuns
  import opened MigrationProvisos
  import opened MigrationWorker

  // ---- one actor's phase ----

  // What a phase of one actor leaves: its transactions done, nobody else moved.
  predicate Leaves(w: World, w': World, t: nat, db: Db, p: Proc) {
    w'.db == db && w'.procs == w.procs[t := p] && w'.used == w.used && w'.spoiled == w.spoiled
  }

  // What an actor at p does next.
  ghost predicate Does(slug: Ref -> Table, db: Db, used: set<Chunk>, p: Proc, a: Action, db': Db, next: Proc) {
    Advance(slug, db, used, p, Go) == (a, next) && CanApply(db, a) && Apply(db, a) == db'
    && !a.AIndex? && !a.ADrop?
  }

  lemma NoTurns(slug: Ref -> Table, w: World, t: nat)
    requires t in w.procs
    ensures Leaves(w, Exec(slug, w, Turns(t, 0)), t, w.db, w.procs[t])
  {
    assert w.procs == w.procs[t := w.procs[t]];
  }

  lemma LeavesOn(w: World, v: World, v': World, t: nat, db: Db, p: Proc, db': Db, next: Proc)
    requires Leaves(w, v, t, db, p) && v'.db == db' && v'.procs == v.procs[t := next]
    requires v'.used == v.used && v'.spoiled == v.spoiled
    ensures Leaves(w, v', t, db', next)
  {
    assert w.procs[t := p][t := next] == w.procs[t := next];
  }

  lemma Acts(slug: Ref -> Table, v: World, t: nat, p: Proc, a: Action, db': Db, next: Proc)
    requires t in v.procs && v.procs[t] == p && Does(slug, v.db, v.used, p, a, db', next)
    ensures var v' := Step(slug, v, t, Go);
            v'.db == db' && v'.procs == v.procs[t := next] && v'.used == v.used && v'.spoiled == v.spoiled
  {
    StepIs(slug, v, t, Go, a, next);
    hide Advance, Apply, CanApply, Step;
  }

  lemma Turn(slug: Ref -> Table, w: World, t: nat, n: nat, db: Db, p: Proc, a: Action, db': Db, next: Proc)
    requires Leaves(w, Exec(slug, w, Turns(t, n)), t, db, p) && Does(slug, db, w.used, p, a, db', next)
    ensures Leaves(w, Exec(slug, w, Turns(t, n + 1)), t, db', next)
  {
    hide Does, Exec, Turns, Step;
    var v := Exec(slug, w, Turns(t, n));
    ExecTurns(slug, w, t, n + 1);
    Acts(slug, v, t, p, a, db', next);
    LeavesOn(w, v, Step(slug, v, t, Go), t, db, p, db', next);
  }

  lemma StartPlan(slug: Ref -> Table, db: Db, used: set<Chunk>, from: Ref, to: Ref)
    requires from != to && from in db.providers && ActiveId(db) == None && CanProvision(db, to, slug(to))
    ensures var total := |db.chunks|;
            && Does(slug, db, used, SStart(from, to), ARead, db, SChecked(from, to))
            && Does(slug, db, used, SChecked(from, to), ARead, db, SReady(from, to, total))
            && Does(slug, db, used, SReady(from, to, total), AProvision(to, slug(to)), Provision(db, to, slug(to)),
                    SProvisioned(from, to, total))
  {
    hide ActiveId, CanProvision, Provision;
  }

  lemma OpenPlan(slug: Ref -> Table, db: Db, used: set<Chunk>, from: Ref, to: Ref, total: nat)
    requires ActiveId(db) == None
    ensures var m := Row(from, to, slug(to), InProgress, false, total, 0, 0);
            Does(slug, db, used, SProvisioned(from, to, total), AOpen(m), Open(db, m), Done)
  {
    hide ActiveId;
  }

  lemma SameRowsSameActive(db: Db, db': Db)
    requires db'.migrations == db.migrations
    ensures ActiveId(db') == ActiveId(db)
  {
    SameActiveFrom(db, db', 0);
  }

  lemma StartPhase(slug: Ref -> Table, w: World, t: nat, from: Ref, to: Ref)
    requires t in w.procs && w.procs[t] == SStart(from, to) && from != to && from in w.db.providers
    requires ActiveId(w.db) == None && CanProvision(w.db, to, slug(to))
    ensures var m := Row(from, to, slug(to), InProgress, false, |w.db.chunks|, 0, 0);
            Leaves(w, Exec(slug, w, Turns(t, 4)), t, Open(Provision(w.db, to, slug(to)), m), Done)
  {
    var db, total := w.db, |w.db.chunks|;
    var ready, m := Provision(db, to, slug(to)), Row(from, to, slug(to), InProgress, false, total, 0, 0);
    StartPlan(slug, db, w.used, from, to);
    SameRowsSameActive(db, ready);
    OpenPlan(slug, ready, w.used, from, to, total);
    NoTurns(slug, w, t);
    hide Leaves, Does, Exec, Turns, Provision, Open, ActiveId;
    Turn(slug, w, t, 0, db, SStart(from, to), ARead, db, SChecked(from, to));
    Turn(slug, w, t, 1, db, SChecked(from, to), ARead, db, SReady(from, to, total));
    Turn(slug, w, t, 2, db, SReady(from, to, total), AProvision(to, slug(to)), ready, SProvisioned(from, to, total));
    Turn(slug, w, t, 3, ready, SProvisioned(from, to, total), AOpen(m), Open(ready, m), Done);
  }

  lemma CompletePlan(slug: Ref -> Table, db: Db, used: set<Chunk>, id: nat)
    requires Ready(db, id) && Left(db, id) == 0
    ensures var m := db.migrations[id]; var flip := Activate(db, m.to);
            && Running(flip, id)
            && Does(slug, db, used, WIdle, ARead, db, WFound(id, m.to, m.toTable))
            && Does(slug, db, used, WFound(id, m.to, m.toTable), ARead, db, WFlip(id, m.to))
            && Does(slug, db, used, WFlip(id, m.to), AActivate(m.to), flip, WFinish(id))
            && Does(slug, flip, used, WFinish(id), AFinish(id, Complete), Finish(flip, id, Complete), WIdle)
  {
    EmptyIff(Missing(db, db.migrations[id].toTable));
    hide Missing, ActiveFrom;
  }

  lemma FindPhase(slug: Ref -> Table, w: World, t: nat, id: nat)
    requires t in w.procs && w.procs[t] == WIdle && Ready(w.db, id) && Left(w.db, id) == 0
    ensures Leaves(w, Exec(slug, w, Turns(t, 2)), t, w.db, WFlip(id, w.db.migrations[id].to))
  {
    var db, m := w.db, w.db.migrations[id];
    CompletePlan(slug, db, w.used, id);
    NoTurns(slug, w, t);
    hide Leaves, Does, Exec, Turns, Ready, Left;
    Turn(slug, w, t, 0, db, WIdle, ARead, db, WFound(id, m.to, m.toTable));
    Turn(slug, w, t, 1, db, WFound(id, m.to, m.toTable), ARead, db, WFlip(id, m.to));
  }

  lemma CompletePhase(slug: Ref -> Table, w: World, t: nat, id: nat)
    requires t in w.procs && w.procs[t] == WIdle && Ready(w.db, id) && Left(w.db, id) == 0
    ensures var m := w.db.migrations[id];
            && Running(Activate(w.db, m.to), id)
            && Leaves(w, Exec(slug, w, Turns(t, 4)), t, Finish(Activate(w.db, m.to), id, Complete), WIdle)
  {
    var m := w.db.migrations[id];
    var flip := Activate(w.db, m.to);
    CompletePlan(slug, w.db, w.used, id);
    FindPhase(slug, w, t, id);
    hide Leaves, Does, Exec, Turns, Ready, Left, Activate, Finish;
    Turn(slug, w, t, 2, w.db, WFlip(id, m.to), AActivate(m.to), flip, WFinish(id));
    Turn(slug, w, t, 3, flip, WFinish(id), AFinish(id, Complete), Finish(flip, id, Complete), WIdle);
  }

  lemma ActiveIsOnly(db: Db, r: Ref)
    requires IsActive(db, r) && forall q | IsActive(db, q) :: q == r
    ensures ActiveRef(db) == Some(r)
  {
    assert ActiveRef(db).Some? ==> IsActive(db, ActiveRef(db).value);
  }

  // An index write of new chunks with no migration in progress.
  lemma WritePhase(slug: Ref -> Table, w: World, t: nat, r: Ref, born: set<Chunk>)
    requires t in w.procs && w.procs[t] == IStart && IsActive(w.db, r) && (forall q | IsActive(w.db, q) :: q == r)
    requires ActiveId(w.db) == None && born * w.used == {} && w.db.providers[r].table in w.db.tables
    ensures var w' := Exec(slug, w, Turns(t, 2) + [(t, Ids({}, born))]);
            && w'.db == IndexNote(w.db, {}, born, {w.db.providers[r].table})
            && w'.procs == w.procs[t := Done] && w'.used == w.used + born && w'.spoiled == w.spoiled
  {
    var table := w.db.providers[r].table;
    ActiveIsOnly(w.db, r);
    NoTurns(slug, w, t);
    WritePlan(slug, w.db, w.used, r, born);
    ExecSnoc(slug, w, Turns(t, 2), t, Ids({}, born));
    hide Leaves, Does, Exec, Turns, Advance, IndexNote;
    Turn(slug, w, t, 0, w.db, IStart, ARead, w.db, IActive(table));
    Turn(slug, w, t, 1, w.db, IActive(table), ARead, w.db, ITargets({table}, None));
    Writes(slug, w, Exec(slug, w, Turns(t, 2)), t, table, born);
  }

  lemma Writes(slug: Ref -> Table, w: World, v: World, t: nat, table: Table, born: set<Chunk>)
    requires Leaves(w, v, t, w.db, ITargets({table}, None))
    requires Advance(slug, w.db, w.used, ITargets({table}, None), Ids({}, born)) == (AIndex({}, born, {table}, None), Done)
    requires ActiveId(w.db) == None
    ensures var w' := Step(slug, v, t, Ids({}, born));
            && w'.db == IndexNote(w.db, {}, born, {table}) && w'.procs == w.procs[t := Done]
            && w'.used == w.used + born && w'.spoiled == w.spoiled
  {
    StepIs(slug, v, t, Ids({}, born), AIndex({}, born, {table}, None), Done);
    hide Advance, IndexNote, Step;
    assert v.procs[t := Done] == w.procs[t := Done];
  }

  lemma WritePlan(slug: Ref -> Table, db: Db, used: set<Chunk>, r: Ref, born: set<Chunk>)
    requires ActiveRef(db) == Some(r) && ActiveId(db) == None && born * used == {} && db.providers[r].table in db.tables
    ensures var table := db.providers[r].table;
            && Does(slug, db, used, IStart, ARead, db, IActive(table))
            && Does(slug, db, used, IActive(table), ARead, db, ITargets({table}, None))
            && Advance(slug, db, used, ITargets({table}, None), Ids({}, born)) == (AIndex({}, born, {table}, None), Done)
  {
  }

  // A rollback with no migration in progress.
  lemma RollbackPhase(slug: Ref -> Table, w: World, t: nat)
    requires t in w.procs && w.procs[t] == RStart && ActiveId(w.db) == None && w.db.providers != map[]
    requires w.db.migrations != [] && w.db.migrations[|w.db.migrations| - 1].status == Complete
    ensures Leaves(w, Exec(slug, w, Turns(t, 3)), t, Activate(w.db, w.db.migrations[|w.db.migrations| - 1].from), Done)
  {
    var from := w.db.migrations[|w.db.migrations| - 1].from;
    RollbackPlan(slug, w.db, w.used);
    NoTurns(slug, w, t);
    hide Leaves, Does, Exec, Turns, Activate;
    Turn(slug, w, t, 0, w.db, RStart, ARead, w.db, RLatest);
    Turn(slug, w, t, 1, w.db, RLatest, ARead, w.db, RActivate(from));
    Turn(slug, w, t, 2, w.db, RActivate(from), AActivate(from), Activate(w.db, from), Done);
  }

  lemma RollbackPlan(slug: Ref -> Table, db: Db, used: set<Chunk>)
    requires ActiveId(db) == None && db.providers != map[]
    requires db.migrations != [] && db.migrations[|db.migrations| - 1].status == Complete
    ensures var from := db.migrations[|db.migrations| - 1].from;
            && Does(slug, db, used, RStart, ARead, db, RLatest)
            && Does(slug, db, used, RLatest, ARead, db, RActivate(from))
            && Does(slug, db, used, RActivate(from), AActivate(from), Activate(db, from), Done)
  {
    hide ActiveId;
  }

  // A prune up to its drop, and with it.
  lemma PruneChecks(slug: Ref -> Table, w: World, t: nat, ref: Ref)
    requires t in w.procs && w.procs[t] == XStart(ref) && ActiveRef(w.db) != Some(ref) && ActiveId(w.db) == None
    ensures Leaves(w, Exec(slug, w, Turns(t, 2)), t, w.db, XDrop(ref))
  {
    PrunePlan(slug, w.db, w.used, ref);
    NoTurns(slug, w, t);
    hide Leaves, Does, Exec, Turns;
    Turn(slug, w, t, 0, w.db, XStart(ref), ARead, w.db, XIdle(ref));
    Turn(slug, w, t, 1, w.db, XIdle(ref), ARead, w.db, XDrop(ref));
  }

  lemma PruneDrops(slug: Ref -> Table, w: World, t: nat, ref: Ref)
    requires t in w.procs && w.procs[t] == XDrop(ref) && ref in w.db.providers
    ensures var w' := Step(slug, w, t, Go); w'.db == Drop(w.db, ref) && w'.procs == w.procs[t := Done]
  {
    StepIs(slug, w, t, Go, ADrop(ref), Done);
    hide Step, Advance;
  }

  lemma PrunePhase(slug: Ref -> Table, w: World, t: nat, ref: Ref)
    requires t in w.procs && w.procs[t] == XStart(ref) && ActiveRef(w.db) != Some(ref) && ActiveId(w.db) == None
    requires ref in w.db.providers
    ensures var w' := Exec(slug, w, Turns(t, 3)); w'.db == Drop(w.db, ref) && w'.procs == w.procs[t := Done]
  {
    PruneChecks(slug, w, t, ref);
    ExecTurns(slug, w, t, 3);
    hide Exec, Turns, Step, Drop, ActiveId, ActiveRef;
    var v := Exec(slug, w, Turns(t, 2));
    PruneDrops(slug, v, t, ref);
    TwoMoves(w.procs, t, XDrop(ref), Done);
  }

  lemma TwoMoves(procs: map<nat, Proc>, t: nat, p: Proc, q: Proc)
    ensures procs[t := p][t := q] == procs[t := q]
  {
  }

  lemma PrunePlan(slug: Ref -> Table, db: Db, used: set<Chunk>, ref: Ref)
    requires ActiveRef(db) != Some(ref) && ActiveId(db) == None
    ensures Does(slug, db, used, XStart(ref), ARead, db, XIdle(ref))
    ensures Does(slug, db, used, XIdle(ref), ARead, db, XDrop(ref))
  {
    hide ActiveId, ActiveRef;
  }

  // A rollback of the migration in progress.
  lemma AbortPhase(slug: Ref -> Table, w: World, t: nat, id: nat)
    requires t in w.procs && w.procs[t] == RStart && ActiveId(w.db) == Some(id)
    ensures Leaves(w, Exec(slug, w, Turns(t, 2)), t, Finish(w.db, id, RolledBack), Done)
  {
    AbortPlan(slug, w.db, w.used, id);
    NoTurns(slug, w, t);
    hide Leaves, Does, Exec, Turns, Finish;
    Turn(slug, w, t, 0, w.db, RStart, ARead, w.db, RFinish(id));
    Turn(slug, w, t, 1, w.db, RFinish(id), AFinish(id, RolledBack), Finish(w.db, id, RolledBack), Done);
  }

  lemma AbortPlan(slug: Ref -> Table, db: Db, used: set<Chunk>, id: nat)
    requires ActiveId(db) == Some(id)
    ensures Does(slug, db, used, RStart, ARead, db, RFinish(id))
    ensures Does(slug, db, used, RFinish(id), AFinish(id, RolledBack), Finish(db, id, RolledBack), Done)
  {
    hide ActiveId;
  }

  // A flip and its finish over a row that is no longer in progress.
  lemma LateFlipPhase(slug: Ref -> Table, w: World, t: nat, id: nat, to: Ref)
    requires t in w.procs && w.procs[t] == WFlip(id, to) && !Running(w.db, id) && w.db.providers != map[]
    ensures Leaves(w, Exec(slug, w, Turns(t, 2)), t, Activate(w.db, to), WIdle)
  {
    LateFlipPlan(slug, w.db, w.used, id, to);
    NoTurns(slug, w, t);
    var flip := Activate(w.db, to);
    hide Leaves, Does, Exec, Turns, Activate;
    Turn(slug, w, t, 0, w.db, WFlip(id, to), AActivate(to), flip, WFinish(id));
    Turn(slug, w, t, 1, flip, WFinish(id), ARead, flip, WIdle);
  }

  lemma LateFlipPlan(slug: Ref -> Table, db: Db, used: set<Chunk>, id: nat, to: Ref)
    requires !Running(db, id) && db.providers != map[]
    ensures var flip := Activate(db, to);
            && Does(slug, db, used, WFlip(id, to), AActivate(to), flip, WFinish(id))
            && Does(slug, flip, used, WFinish(id), ARead, flip, WIdle)
  {
  }

  // A daemon on an empty vault, embedding under `from`, and its actors to come.
  function EmptyVault(slug: Ref -> Table, from: Ref, to: Ref): World {
    World(Db({}, map[slug(from) := {}], map[from := Provider(slug(from), true)], []),
          map[0 := SStart(from, to), 1 := WIdle, 2 := IStart, 3 := RStart, 4 := XStart(to), 5 := XStart(from),
              6 := BStart(from)],
          {}, [], {}, {})
  }

  lemma EmptyVaultIsInitial(slug: Ref -> Table, from: Ref, to: Ref)
    ensures Initial(slug, EmptyVault(slug, from, to))
  {
  }

  predicate Waits(w: World, t: nat, p: Proc) { t in w.procs && w.procs[t] == p }

  predicate AllWait(w: World, from: Ref, to: Ref) {
    Waits(w, 2, IStart) && Waits(w, 3, RStart) && Waits(w, 4, XStart(to)) && Waits(w, 5, XStart(from))
    && Waits(w, 6, BStart(from))
  }

  lemma EmptyVaultWaits(slug: Ref -> Table, from: Ref, to: Ref)
    ensures var w := EmptyVault(slug, from, to); AllWait(w, from, to) && Waits(w, 1, WIdle) && w.used == {} && w.spoiled == {}
  {
  }

  // That vault with its two providers, `active` the one in use, and one
  // migration on record.
  function TwoTables(slug: Ref -> Table, from: Ref, to: Ref, active: Ref, status: Status): Db {
    Db({}, map[slug(from) := {}, slug(to) := {}],
       map[from := Provider(slug(from), active == from), to := Provider(slug(to), active == to)],
       [Row(from, to, slug(to), status, false, 0, 0, 0)])
  }

  lemma ActiveOfOne(db: Db)
    requires |db.migrations| == 1
    ensures ActiveId(db) == if db.migrations[0].status == InProgress then Some(0) else None
  {
    assert ActiveFrom(db, 1) == None;
  }

  lemma TwoAreReady(slug: Ref -> Table, from: Ref, to: Ref)
    requires slug(from) != slug(to)
    ensures var db := TwoTables(slug, from, to, from, InProgress); Ready(db, 0) && Left(db, 0) == 0
  {
    var db := TwoTables(slug, from, to, from, InProgress);
    ActiveOfOne(db);
    assert from in db.providers;
    hide ActiveId;
  }

  lemma ActivatesOther(slug: Ref -> Table, from: Ref, to: Ref, active: Ref, status: Status, ref: Ref)
    requires slug(from) != slug(to)
    ensures Activate(TwoTables(slug, from, to, active, status), ref) == TwoTables(slug, from, to, ref, status)
  {
    assert Activate(TwoTables(slug, from, to, active, status), ref).providers
        == TwoTables(slug, from, to, ref, status).providers;
  }

  // A started migration, with nothing to move.
  lemma Starts(slug: Ref -> Table, from: Ref, to: Ref)
    requires slug(from) != slug(to)
    ensures var w := Exec(slug, EmptyVault(slug, from, to), Turns(0, 4));
            && w.db == TwoTables(slug, from, to, from, InProgress) && w.used == {} && w.spoiled == {}
            && AllWait(w, from, to) && Waits(w, 1, WIdle)
  {
    hide Exec, Turns, ActiveId, EmptyVault, AllWait, Provision, Open, TwoTables;
    var w := EmptyVault(slug, from, to);
    EmptyVaultStarts(slug, from, to);
    StartPhase(slug, w, 0, from, to);
    LeavesWaiting(w, Exec(slug, w, Turns(0, 4)), 0, TwoTables(slug, from, to, from, InProgress), Done, from, to);
  }

  lemma LeavesWaiting(w: World, w': World, t: nat, db: Db, p: Proc, from: Ref, to: Ref)
    requires Leaves(w, w', t, db, p) && t == 0 && AllWait(w, from, to) && Waits(w, 1, WIdle)
    ensures w'.db == db && w'.used == w.used && w'.spoiled == w.spoiled && AllWait(w', from, to) && Waits(w', 1, WIdle)
  {
  }

  lemma EmptyVaultStarts(slug: Ref -> Table, from: Ref, to: Ref)
    requires slug(from) != slug(to)
    ensures var w := EmptyVault(slug, from, to);
            && Waits(w, 0, SStart(from, to)) && from != to && from in w.db.providers && ActiveId(w.db) == None
            && AllWait(w, from, to) && Waits(w, 1, WIdle) && w.used == {} && w.spoiled == {}
            && CanProvision(w.db, to, slug(to)) && |w.db.chunks| == 0
            && Open(Provision(w.db, to, slug(to)), Row(from, to, slug(to), InProgress, false, 0, 0, 0))
               == TwoTables(slug, from, to, from, InProgress)
  {
    EmptyVaultWaits(slug, from, to);
    var db := EmptyVault(slug, from, to).db;
    hide AllWait;
    var started := Provision(db, to, slug(to));
    assert started.tables == TwoTables(slug, from, to, from, InProgress).tables;
    assert started.providers == TwoTables(slug, from, to, from, InProgress).providers;
  }

  // And a completed one.
  function Migrated(): seq<(nat, Choice)> { Turns(0, 4) + Turns(1, 4) }

  lemma Completes(slug: Ref -> Table, from: Ref, to: Ref, w: World)
    requires slug(from) != slug(to) && w.db == TwoTables(slug, from, to, from, InProgress)
    requires AllWait(w, from, to) && Waits(w, 1, WIdle)
    ensures var w' := Exec(slug, w, Turns(1, 4));
            w'.db == TwoTables(slug, from, to, to, Complete) && w'.used == w.used && AllWait(w', from, to)
  {
    hide Exec, Turns, Activate, Finish, Running, Ready, Left, TwoTables, AllWait;
    TwoAreReady(slug, from, to);
    CompletePhase(slug, w, 1, 0);
    ActivatesOther(slug, from, to, from, InProgress, to);
    FinishesRow(slug, from, to, Complete);
    WorkerLeaves(w, Exec(slug, w, Turns(1, 4)), TwoTables(slug, from, to, to, Complete), WIdle, from, to);
  }

  lemma WorkerLeaves(w: World, w': World, db: Db, p: Proc, from: Ref, to: Ref)
    requires Leaves(w, w', 1, db, p) && AllWait(w, from, to)
    ensures w'.db == db && w'.used == w.used && w'.spoiled == w.spoiled && AllWait(w', from, to) && Waits(w', 1, p)
  {
  }

  lemma FinishesRow(slug: Ref -> Table, from: Ref, to: Ref, status: Status)
    ensures var db := TwoTables(slug, from, to, to, InProgress);
            && |db.migrations| == 1 && db.migrations[0].to == to && db.providers != map[]
            && Running(db, 0) && Finish(db, 0, status) == TwoTables(slug, from, to, to, status)
    ensures |TwoTables(slug, from, to, from, InProgress).migrations| == 1
    ensures TwoTables(slug, from, to, from, InProgress).migrations[0].to == to
  {
    assert to in TwoTables(slug, from, to, to, InProgress).providers;
  }

  lemma Migrates(slug: Ref -> Table, from: Ref, to: Ref)
    requires slug(from) != slug(to)
    ensures var w := Exec(slug, EmptyVault(slug, from, to), Migrated());
            w.db == TwoTables(slug, from, to, to, Complete) && w.used == {} && AllWait(w, from, to)
  {
    hide Exec, Turns, EmptyVault, AllWait, Waits, TwoTables;
    var w0 := EmptyVault(slug, from, to);
    Starts(slug, from, to);
    Completes(slug, from, to, Exec(slug, w0, Turns(0, 4)));
    ExecAppend(slug, w0, Turns(0, 4), Turns(1, 4));
  }

  // Pruning the from-provider after completion passes its checks. A rollback
  // then succeeds too, and leaves no provider active.
  lemma RollbackAfterPruneLeavesNone(slug: Ref -> Table, from: Ref, to: Ref)
    requires slug(from) != slug(to)
    ensures var w0 := EmptyVault(slug, from, to); var w := Exec(slug, w0, Migrated() + Turns(5, 3) + Turns(3, 3));
            Initial(slug, w0) && w.db.providers.Keys == {to} && ActiveRef(w.db) == None
  {
    hide Exec, Turns, EmptyVault, Migrated, Initial;
    var w0 := EmptyVault(slug, from, to);
    var w1 := Exec(slug, w0, Migrated());
    EmptyVaultIsInitial(slug, from, to);
    Migrates(slug, from, to);
    PruneThenRollback(slug, from, to, w1);
    ExecAppend(slug, w0, Migrated(), Turns(5, 3));
    ExecAppend(slug, w0, Migrated() + Turns(5, 3), Turns(3, 3));
  }

  lemma PruneThenRollback(slug: Ref -> Table, from: Ref, to: Ref, w: World)
    requires slug(from) != slug(to) && w.db == TwoTables(slug, from, to, to, Complete) && AllWait(w, from, to)
    ensures var end := Exec(slug, Exec(slug, w, Turns(5, 3)), Turns(3, 3));
            end.db.providers.Keys == {to} && ActiveRef(end.db) == None
  {
    hide Exec, Turns, ActiveId, ActiveRef, Activate, Drop, TwoTables;
    PrunedDb(slug, from, to);
    PrunePhase(slug, w, 5, from);
    RollbackPhase(slug, Exec(slug, w, Turns(5, 3)), 3);
  }

  lemma PrunedDb(slug: Ref -> Table, from: Ref, to: Ref)
    requires slug(from) != slug(to)
    ensures var db := TwoTables(slug, from, to, to, Complete);
            && ActiveRef(db) == Some(to) && from != to && ActiveId(db) == None && from in db.providers
            && var pruned := Drop(db, from);
               && ActiveId(pruned) == None && pruned.providers != map[] && |pruned.migrations| == 1
               && pruned.migrations[0].status == Complete && pruned.migrations[0].from == from
               && Activate(pruned, from).providers.Keys == {to} && ActiveRef(Activate(pruned, from)) == None
  {
    var db := TwoTables(slug, from, to, to, Complete);
    var pruned := Drop(db, from);
    assert to in pruned.providers;
    ActiveOfOne(db);
    ActiveOfOne(pruned);
    hide ActiveId;
    ActiveIsOnly(db, to);
    assert Activate(pruned, from).providers.Keys == {to};
  }

  // Complete, write, roll back, prune the to-provider: every check passes, and
  // the chunk written in between is lost.
  function LossRun(): seq<(nat, Choice)> {
    Migrated() + (Turns(2, 2) + [(2, Ids({}, {0}))]) + Turns(3, 3) + Turns(4, 3)
  }

  lemma PruneAfterRollbackLoses(slug: Ref -> Table, from: Ref, to: Ref)
    requires slug(from) != slug(to)
    ensures var w0 := EmptyVault(slug, from, to); var w := Exec(slug, w0, LossRun());
            Initial(slug, w0) && w.db.chunks == {0} && !(exists r :: Reaches(w.db, r, 0)) && ActiveRef(w.db) == Some(from)
  {
    hide Exec, Turns, EmptyVault, Migrated, Initial, ActiveRef, AllWait, TwoTables, IndexNote;
    var w0 := EmptyVault(slug, from, to);
    var w1 := Exec(slug, w0, Migrated());
    var write := Turns(2, 2) + [(2, Ids({}, {0}))];
    EmptyVaultIsInitial(slug, from, to);
    Migrates(slug, from, to);
    LossBegins(slug, from, to, w1);
    LossEnds(slug, from, to, Exec(slug, w1, write));
    ExecAppend(slug, w0, Migrated(), write);
    ExecAppend(slug, w0, Migrated() + write, Turns(3, 3));
    ExecAppend(slug, w0, Migrated() + write + Turns(3, 3), Turns(4, 3));
  }

  lemma LossBegins(slug: Ref -> Table, from: Ref, to: Ref, w: World)
    requires slug(from) != slug(to) && w.db == TwoTables(slug, from, to, to, Complete) && w.used == {} && AllWait(w, from, to)
    ensures var w' := Exec(slug, w, Turns(2, 2) + [(2, Ids({}, {0}))]);
            && w'.db == IndexNote(TwoTables(slug, from, to, to, Complete), {}, {0}, {slug(to)})
            && Waits(w', 3, RStart) && Waits(w', 4, XStart(to))
  {
    hide Exec, Turns, ActiveId, IndexNote, TwoTables;
    WriteDb(slug, from, to);
    WritePhase(slug, w, 2, to, {0});
  }

  lemma WriteDb(slug: Ref -> Table, from: Ref, to: Ref)
    requires slug(from) != slug(to)
    ensures var db := TwoTables(slug, from, to, to, Complete);
            && IsActive(db, to) && (forall q | IsActive(db, q) :: q == to) && ActiveId(db) == None
            && db.providers[to].table == slug(to) && slug(to) in db.tables
  {
    ActiveOfOne(TwoTables(slug, from, to, to, Complete));
  }

  lemma LossEnds(slug: Ref -> Table, from: Ref, to: Ref, w: World)
    requires slug(from) != slug(to) && Waits(w, 3, RStart) && Waits(w, 4, XStart(to))
    requires w.db == IndexNote(TwoTables(slug, from, to, to, Complete), {}, {0}, {slug(to)})
    ensures var end := Exec(slug, Exec(slug, w, Turns(3, 3)), Turns(4, 3));
            end.db.chunks == {0} && !(exists r :: Reaches(end.db, r, 0)) && ActiveRef(end.db) == Some(from)
  {
    hide Exec, Turns, ActiveId, ActiveRef, Activate, Drop, IndexNote, TwoTables;
    LossDb(slug, from, to);
    RollbackPhase(slug, w, 3);
    PrunePhase(slug, Exec(slug, w, Turns(3, 3)), 4, to);
  }

  lemma LossDb(slug: Ref -> Table, from: Ref, to: Ref)
    requires slug(from) != slug(to)
    ensures var db := IndexNote(TwoTables(slug, from, to, to, Complete), {}, {0}, {slug(to)});
            var back := Activate(db, from);
            && db.providers != map[] && ActiveId(db) == None && db.migrations != []
            && db.migrations[|db.migrations| - 1].status == Complete && db.migrations[|db.migrations| - 1].from == from
            && ActiveId(back) == None && ActiveRef(back) == Some(from) && to in back.providers && from != to
            && Drop(back, to).chunks == {0} && !(exists r :: Reaches(Drop(back, to), r, 0))
                && ActiveRef(Drop(back, to)) == Some(from)
  {
    var db := IndexNote(TwoTables(slug, from, to, to, Complete), {}, {0}, {slug(to)});
    var back := Activate(db, from);
    assert from in db.providers;
    ActiveOfOne(db);
    ActiveOfOne(back);
    hide ActiveId, ActiveRef;
    ActiveIsOnly(back, from);
    ActiveIsOnly(Drop(back, to), from);
  }

  // A rollback that finds the migration before the worker's flip and finishes
  // the row after it: the row reads rolled back, and the to-provider is active.
  function LateRollback(): seq<(nat, Choice)> {
    Turns(0, 4) + Turns(1, 2) + [(3, Go)] + [(1, Go)] + [(3, Go)] + [(1, Go)]
  }

  lemma RollbackBetweenFlipAndFinish(slug: Ref -> Table, from: Ref, to: Ref)
    requires slug(from) != slug(to)
    ensures var w0 := EmptyVault(slug, from, to); var w := Exec(slug, w0, LateRollback());
            Initial(slug, w0) && w.db == TwoTables(slug, from, to, to, RolledBack)
  {
    hide Exec, Turns, EmptyVault, Initial, AllWait, TwoTables, Step;
    var w0 := EmptyVault(slug, from, to);
    var w1 := Exec(slug, w0, Turns(0, 4));
    EmptyVaultIsInitial(slug, from, to);
    Starts(slug, from, to);
    ExecAppend(slug, w0, Turns(0, 4), Turns(1, 2));
    Finds(slug, from, to, w1);
    LateSteps(slug, from, to, Exec(slug, w1, Turns(1, 2)));
    var found := Turns(0, 4) + Turns(1, 2);
    ExecSnoc(slug, w0, found, 3, Go);
    ExecSnoc(slug, w0, found + [(3, Go)], 1, Go);
    ExecSnoc(slug, w0, found + [(3, Go)] + [(1, Go)], 3, Go);
    ExecSnoc(slug, w0, found + [(3, Go)] + [(1, Go)] + [(3, Go)], 1, Go);
  }

  lemma Finds(slug: Ref -> Table, from: Ref, to: Ref, w: World)
    requires slug(from) != slug(to) && w.db == TwoTables(slug, from, to, from, InProgress)
    requires AllWait(w, from, to) && Waits(w, 1, WIdle)
    ensures var w' := Exec(slug, w, Turns(1, 2));
            && w'.db == w.db && w'.used == w.used && w'.spoiled == w.spoiled
            && Waits(w', 1, WFlip(0, to)) && Waits(w', 3, RStart) && Waits(w', 2, IStart)
  {
    hide Exec, Turns, Ready, Left, TwoTables, AllWait;
    TwoAreReady(slug, from, to);
    FinishesRow(slug, from, to, RolledBack);
    FindPhase(slug, w, 1, 0);
    WorkerLeaves(w, Exec(slug, w, Turns(1, 2)), w.db, WFlip(0, to), from, to);
    RollbackWaits(Exec(slug, w, Turns(1, 2)), from, to);
  }

  lemma RollbackWaits(w: World, from: Ref, to: Ref)
    requires AllWait(w, from, to)
    ensures Waits(w, 3, RStart) && Waits(w, 2, IStart)
  {
  }

  // The flip falls between the rollback's look and its write.
  lemma LatePlan(slug: Ref -> Table, db: Db, used: set<Chunk>, id: nat, to: Ref)
    requires ActiveId(db) == Some(id) && db.providers != map[]
    ensures var flip := Activate(db, to);
            && Running(flip, id)
            && Does(slug, db, used, RStart, ARead, db, RFinish(id))
            && Does(slug, db, used, WFlip(id, to), AActivate(to), flip, WFinish(id))
            && Does(slug, flip, used, RFinish(id), AFinish(id, RolledBack), Finish(flip, id, RolledBack), Done)
            && Does(slug, Finish(flip, id, RolledBack), used, WFinish(id), ARead, Finish(flip, id, RolledBack), WIdle)
  {
    hide ActiveId;
  }

  lemma LateSteps(slug: Ref -> Table, from: Ref, to: Ref, w: World)
    requires slug(from) != slug(to) && w.db == TwoTables(slug, from, to, from, InProgress)
    requires Waits(w, 1, WFlip(0, to)) && Waits(w, 3, RStart)
    ensures var end := Step(slug, Step(slug, Step(slug, Step(slug, w, 3, Go), 1, Go), 3, Go), 1, Go);
            end.db == TwoTables(slug, from, to, to, RolledBack)
  {
    TwoAreReady(slug, from, to);
    hide Step, Activate, ActiveId, TwoTables, Does, Left, Finish;
    ActivatesOther(slug, from, to, from, InProgress, to);
    FinishesRow(slug, from, to, RolledBack);
    LatePlan(slug, w.db, w.used, 0, to);
    var flip := Activate(w.db, to);
    var w1 := Step(slug, w, 3, Go);
    Acts(slug, w, 3, RStart, ARead, w.db, RFinish(0));
    var w2 := Step(slug, w1, 1, Go);
    Acts(slug, w1, 1, WFlip(0, to), AActivate(to), flip, WFinish(0));
    var w3 := Step(slug, w2, 3, Go);
    Acts(slug, w2, 3, RFinish(0), AFinish(0, RolledBack), Finish(flip, 0, RolledBack), Done);
    Acts(slug, w3, 1, WFinish(0), ARead, Finish(flip, 0, RolledBack), WIdle);
  }

  // A rollback wholly between the worker's check and its flip ends the same way.
  function RollbackFirst(): seq<(nat, Choice)> { Turns(0, 4) + Turns(1, 2) + Turns(3, 2) }

  lemma Aborts(slug: Ref -> Table, from: Ref, to: Ref)
    requires slug(from) != slug(to)
    ensures var w := Exec(slug, EmptyVault(slug, from, to), RollbackFirst());
            && w.db == TwoTables(slug, from, to, from, RolledBack) && w.used == {} && w.spoiled == {}
            && Waits(w, 1, WFlip(0, to)) && Waits(w, 2, IStart)
  {
    hide Exec, Turns, EmptyVault, AllWait, TwoTables;
    var w0 := EmptyVault(slug, from, to);
    var w1 := Exec(slug, w0, Turns(0, 4));
    Starts(slug, from, to);
    Finds(slug, from, to, w1);
    AbortsFrom(slug, from, to, Exec(slug, w1, Turns(1, 2)));
    ExecAppend(slug, w0, Turns(0, 4), Turns(1, 2));
    ExecAppend(slug, w0, Turns(0, 4) + Turns(1, 2), Turns(3, 2));
  }

  lemma AbortsFrom(slug: Ref -> Table, from: Ref, to: Ref, w: World)
    requires slug(from) != slug(to) && w.db == TwoTables(slug, from, to, from, InProgress)
    requires Waits(w, 1, WFlip(0, to)) && Waits(w, 2, IStart) && Waits(w, 3, RStart)
    ensures var w' := Exec(slug, w, Turns(3, 2));
            && w'.db == TwoTables(slug, from, to, from, RolledBack) && w'.used == w.used && w'.spoiled == w.spoiled
            && Waits(w', 1, WFlip(0, to)) && Waits(w', 2, IStart)
  {
    TwoAreReady(slug, from, to);
    hide Exec, Turns, ActiveId, TwoTables, Left, Finish;
    AbortPhase(slug, w, 3, 0);
    AbortsRow(slug, from, to);
  }

  lemma AbortsRow(slug: Ref -> Table, from: Ref, to: Ref)
    ensures var db := TwoTables(slug, from, to, from, InProgress);
            Running(db, 0) && Finish(db, 0, RolledBack) == TwoTables(slug, from, to, from, RolledBack)
    ensures var db := TwoTables(slug, from, to, from, RolledBack);
            !Running(db, 0) && ActiveId(db) == None && db.providers != map[]
  {
    var db := TwoTables(slug, from, to, from, RolledBack);
    assert from in db.providers;
    ActiveOfOne(db);
  }

  lemma RollbackBeforeFlip(slug: Ref -> Table, from: Ref, to: Ref)
    requires slug(from) != slug(to)
    ensures var w0 := EmptyVault(slug, from, to); var w := Exec(slug, w0, RollbackFirst() + Turns(1, 2));
            Initial(slug, w0) && w.db == TwoTables(slug, from, to, to, RolledBack)
  {
    hide Exec, Turns, EmptyVault, Initial, TwoTables, RollbackFirst, ActiveId, Activate;
    var w0 := EmptyVault(slug, from, to);
    EmptyVaultIsInitial(slug, from, to);
    Aborts(slug, from, to);
    AbortsRow(slug, from, to);
    LateFlipPhase(slug, Exec(slug, w0, RollbackFirst()), 1, 0, to);
    ActivatesOther(slug, from, to, from, RolledBack, to);
    ExecAppend(slug, w0, RollbackFirst(), Turns(1, 2));
  }

  // And with an index write after that rollback, the flip makes active a
  // provider whose table lacks the chunk, with nothing dropped or spoiled.
  function WriteAfterRollback(): seq<(nat, Choice)> { RollbackFirst() + (Turns(2, 2) + [(2, Ids({}, {0}))]) }

  lemma FlipIsNotCovered(slug: Ref -> Table, from: Ref, to: Ref)
    requires slug(from) != slug(to)
    ensures var w0 := EmptyVault(slug, from, to); var w := Exec(slug, w0, WriteAfterRollback());
            Initial(slug, w0) && Waits(w, 1, WFlip(0, to)) && w.spoiled == {}
    ensures var w := Exec(slug, EmptyVault(slug, from, to), WriteAfterRollback() + Turns(1, 2));
            IsActive(w.db, to) && w.db.chunks == {0} && !Reaches(w.db, to, 0) && Reaches(w.db, from, 0) && w.spoiled == {}
  {
    hide Exec, Turns, EmptyVault, Initial, TwoTables, RollbackFirst, IndexNote, Reaches, IsActive, Waits;
    var w0 := EmptyVault(slug, from, to);
    var write := Turns(2, 2) + [(2, Ids({}, {0}))];
    EmptyVaultIsInitial(slug, from, to);
    Aborts(slug, from, to);
    var w1 := Exec(slug, w0, RollbackFirst());
    WriteThenFlip(slug, from, to, w1);
    ExecAppend(slug, w0, RollbackFirst(), write);
    ExecAppend(slug, w0, RollbackFirst() + write, Turns(1, 2));
  }

  lemma WriteThenFlip(slug: Ref -> Table, from: Ref, to: Ref, w: World)
    requires slug(from) != slug(to) && w.db == TwoTables(slug, from, to, from, RolledBack) && w.used == {}
    requires Waits(w, 1, WFlip(0, to)) && Waits(w, 2, IStart)
    ensures var v := Exec(slug, w, Turns(2, 2) + [(2, Ids({}, {0}))]); var end := Exec(slug, v, Turns(1, 2));
            && Waits(v, 1, WFlip(0, to)) && v.spoiled == w.spoiled && end.spoiled == w.spoiled
            && IsActive(end.db, to) && end.db.chunks == {0} && !Reaches(end.db, to, 0) && Reaches(end.db, from, 0)
  {
    hide Exec, Turns, ActiveId, IndexNote, TwoTables, Activate;
    ShortDb(slug, from, to);
    WritePhase(slug, w, 2, from, {0});
    LateFlipPhase(slug, Exec(slug, w, Turns(2, 2) + [(2, Ids({}, {0}))]), 1, 0, to);
  }

  lemma ShortDb(slug: Ref -> Table, from: Ref, to: Ref)
    requires slug(from) != slug(to)
    ensures var db := TwoTables(slug, from, to, from, RolledBack);
            && IsActive(db, from) && (forall q | IsActive(db, q) :: q == from) && ActiveId(db) == None
            && db.providers[from].table == slug(from) && slug(from) in db.tables
            && var written := IndexNote(db, {}, {0}, {slug(from)}); var end := Activate(written, to);
               && !Running(written, 0) && written.providers != map[] && IsActive(end, to)
               && end.chunks == {0} && !Reaches(end, to, 0) && Reaches(end, from, 0)
  {
    var db := TwoTables(slug, from, to, from, RolledBack);
    assert from in IndexNote(db, {}, {0}, {slug(from)}).providers;
    ActiveOfOne(db);
    hide ActiveId;
  }

  // A prune of the from-provider passes both checks; a rollback then makes that
  // provider active again, and the drop takes it away.
  lemma PruneInFlightDropsActive(slug: Ref -> Table, from: Ref, to: Ref)
    requires slug(from) != slug(to)
    ensures var w0 := EmptyVault(slug, from, to); var before := Exec(slug, w0, Migrated() + Turns(5, 2) + Turns(3, 3));
            var w := Exec(slug, w0, Migrated() + Turns(5, 2) + Turns(3, 3) + [(5, Go)]);
            Initial(slug, w0) && ActiveRef(before.db) == Some(from) && w.db.providers.Keys == {to} && ActiveRef(w.db) == None
  {
    hide Exec, Turns, EmptyVault, Migrated, Initial, ActiveRef, AllWait, TwoTables, Step;
    var w0 := EmptyVault(slug, from, to);
    var w1 := Exec(slug, w0, Migrated());
    EmptyVaultIsInitial(slug, from, to);
    Migrates(slug, from, to);
    CheckedThenActive(slug, from, to, w1);
    ExecAppend(slug, w0, Migrated(), Turns(5, 2));
    ExecAppend(slug, w0, Migrated() + Turns(5, 2), Turns(3, 3));
    ExecSnoc(slug, w0, Migrated() + Turns(5, 2) + Turns(3, 3), 5, Go);
  }

  lemma CheckedThenActive(slug: Ref -> Table, from: Ref, to: Ref, w: World)
    requires slug(from) != slug(to) && w.db == TwoTables(slug, from, to, to, Complete) && AllWait(w, from, to)
    ensures var before := Exec(slug, Exec(slug, w, Turns(5, 2)), Turns(3, 3)); var end := Step(slug, before, 5, Go);
            ActiveRef(before.db) == Some(from) && end.db.providers.Keys == {to} && ActiveRef(end.db) == None
  {
    hide Exec, Turns, ActiveId, ActiveRef, Activate, Drop, TwoTables, Step;
    BackDb(slug, from, to);
    PruneChecks(slug, w, 5, from);
    RollbackPhase(slug, Exec(slug, w, Turns(5, 2)), 3);
    PruneDrops(slug, Exec(slug, Exec(slug, w, Turns(5, 2)), Turns(3, 3)), 5, from);
  }

  lemma BackDb(slug: Ref -> Table, from: Ref, to: Ref)
    requires slug(from) != slug(to)
    ensures var db := TwoTables(slug, from, to, to, Complete); var back := Activate(db, from);
            && ActiveRef(db) == Some(to) && from != to && ActiveId(db) == None && db.providers != map[]
            && |db.migrations| == 1 && db.migrations[0].status == Complete && db.migrations[0].from == from
            && from in back.providers && ActiveRef(back) == Some(from)
            && Drop(back, from).providers.Keys == {to} && ActiveRef(Drop(back, from)) == None
  {
    var db := TwoTables(slug, from, to, to, Complete);
    assert to in db.providers;
    ActiveOfOne(db);
    ActivatesOther(slug, from, to, to, Complete, from);
    hide ActiveId, Activate;
    ActiveIsOnly(db, to);
    ActiveIsOnly(TwoTables(slug, from, to, from, Complete), from);
    assert Drop(TwoTables(slug, from, to, from, Complete), from).providers.Keys == {to};
  }

  // A daemon started after a completed migration with the old provider still
  // configured makes that one active again.
  lemma RestartUndoesFlip(slug: Ref -> Table, from: Ref, to: Ref)
    requires slug(from) != slug(to)
    ensures var w0 := EmptyVault(slug, from, to); var w := Exec(slug, w0, Migrated() + [(6, Go)]);
            Initial(slug, w0) && w.db == TwoTables(slug, from, to, from, Complete)
  {
    hide Exec, Turns, EmptyVault, Migrated, Initial, AllWait, TwoTables, Step;
    var w0 := EmptyVault(slug, from, to);
    EmptyVaultIsInitial(slug, from, to);
    Migrates(slug, from, to);
    ExecSnoc(slug, w0, Migrated(), 6, Go);
    Boots(slug, from, to, Exec(slug, w0, Migrated()));
  }

  lemma Boots(slug: Ref -> Table, from: Ref, to: Ref, w: World)
    requires slug(from) != slug(to) && w.db == TwoTables(slug, from, to, to, Complete) && AllWait(w, from, to)
    ensures Step(slug, w, 6, Go).db == TwoTables(slug, from, to, from, Complete)
  {
    BootDb(slug, from, to);
    ActivatesOther(slug, from, to, to, Complete, from);
    StepIs(slug, w, 6, Go, ABoot(from, slug(from)), Done);
    hide Step, Advance, Activate, Provision;
  }

  lemma BootDb(slug: Ref -> Table, from: Ref, to: Ref)
    requires slug(from) != slug(to)
    ensures var db := TwoTables(slug, from, to, to, Complete);
            CanProvision(db, from, slug(from)) && Provision(db, from, slug(from)) == db
  {
  }
}
