// What pausing a migration stops, from the pause to the next resume, and what
// resuming it starts again.
module MigrationPause {
  import opened Text
  import opened Migration
  import opened MigrationRuns
  import opened MigrationWorker

  // Once paused, a row is paused for as long as it is in progress.
  ghost predicate Parked(db: Db, id: nat) {
    id < |db.migrations| && (Running(db, id) ==> db.migrations[id].paused)
  }

  // A worker's step is idle exactly when nothing fails it first and whatever is
  // in progress is paused, and then it leaves everything as it was.
  lemma IdleIff(db: Db, fault: Fault)
    requires AtMostOneRunning(db)
    ensures var (after, outcome) := WorkerStep(db, fault);
            && (outcome == Idle <==> fault != AtActive && forall id: nat | Running(db, id) :: db.migrations[id].paused)
            && (outcome == Idle ==> after == db)
  {
    hide Missing, Activate, Finish, Record, MissingBatch;
  }

  // ---- from the pause to the next resume ----

  // What the k-th step of a run does to the database.
  ghost function DoneAt(slug: Ref -> Table, w: World, schedule: seq<(nat, Choice)>, k: nat): Action
    requires k < |schedule|
  {
    var v := Exec(slug, w, schedule[..k]);
    var (t, c) := schedule[k];
    if t in v.procs then Advance(slug, v.db, v.used, v.procs[t], c).0 else ARead
  }

  ghost predicate NoResume(slug: Ref -> Table, w: World, schedule: seq<(nat, Choice)>, id: nat) {
    forall k | 0 <= k < |schedule| :: DoneAt(slug, w, schedule, k) != APause(id, false)
  }

  // A worker with this migration in hand.
  predicate About(p: Proc, id: nat) {
    match p
    case WFound(i, _, _) => i == id
    case WBatch(i, _, _) => i == id
    case WFlip(i, _) => i == id
    case WFinish(i) => i == id
    case _ => false
  }

  // What it may still do for it in the round it is in: record one batch, or
  // flip and finish.
  function Owed(p: Proc, id: nat): nat {
    if !About(p, id) then 0 else match p case WFound(_, _, _) => 2 case WFlip(_, _) => 2 case _ => 1
  }

  // How often a worker changed the database for a migration.
  ghost function Deeds(slug: Ref -> Table, w: World, schedule: seq<(nat, Choice)>, t: nat, id: nat): nat
    decreases |schedule|
  {
    if schedule == [] then 0 else
    var n := |schedule| - 1;
    var v := Exec(slug, w, schedule[..n]);
    Deeds(slug, w, schedule[..n], t, id)
    + if schedule[n].0 == t && t in v.procs && About(v.procs[t], id) && DoneAt(slug, w, schedule, n) != ARead then 1 else 0
  }

  lemma StaysParked(db: Db, a: Action, id: nat)
    requires Parked(db, id) && CanApply(db, a) && a != APause(id, false)
    ensures Parked(Apply(db, a), id)
  {
  }

  predicate IsWorker(p: Proc) { p.WIdle? || p.WFound? || p.WBatch? || p.WFlip? || p.WFinish? }

  lemma OthersAreNoWorkers(slug: Ref -> Table, db: Db, used: set<Chunk>, p: Proc, c: Choice)
    requires !IsWorker(p)
    ensures !IsWorker(Advance(slug, db, used, p, c).1)
  {
    hide Missing, MissingBatch, CanRecord, ActiveId, ActiveRef, Running;
  }

  lemma WorkerOwesLess(slug: Ref -> Table, db: Db, used: set<Chunk>, p: Proc, c: Choice, id: nat)
    requires Parked(db, id) && IsWorker(p)
    ensures var (a, next) := Advance(slug, db, used, p, c);
            && (About(p, id) && a != ARead ==> Owed(next, id) + 1 <= Owed(p, id))
            && Owed(next, id) <= Owed(p, id)
  {
    hide Missing, MissingBatch, CanRecord;
  }

  lemma OneStep(slug: Ref -> Table, w: World, t: nat, c: Choice, id: nat)
    requires Parked(w.db, id) && t in w.procs
    ensures var (a, next) := Advance(slug, w.db, w.used, w.procs[t], c);
            && (About(w.procs[t], id) && a != ARead ==> Owed(next, id) + 1 <= Owed(w.procs[t], id))
            && Owed(next, id) <= Owed(w.procs[t], id)
  {
    hide Advance, Parked;
    if IsWorker(w.procs[t]) {
      WorkerOwesLess(slug, w.db, w.used, w.procs[t], c, id);
    } else {
      OthersAreNoWorkers(slug, w.db, w.used, w.procs[t], c);
    }
  }

  // Until the row is resumed, whatever every other actor does: what a worker
  // does for it and may still do never exceeds what it may when it is paused.
  lemma {:induction false} PausedOwesOneRound(slug: Ref -> Table, w: World, schedule: seq<(nat, Choice)>, t: nat, id: nat)
    requires Parked(w.db, id) && t in w.procs && NoResume(slug, w, schedule, id)
    ensures var end := Exec(slug, w, schedule);
            && Parked(end.db, id) && t in end.procs
            && Deeds(slug, w, schedule, t, id) + Owed(end.procs[t], id) <= Owed(w.procs[t], id)
    decreases |schedule|
  {
    if schedule != [] {
      var n := |schedule| - 1;
      var (u, c) := schedule[n];
      var v := Exec(slug, w, schedule[..n]);
      EarlierSteps(slug, w, schedule);
      PausedOwesOneRound(slug, w, schedule[..n], t, id);
      if u in v.procs {
        var (a, next) := Advance(slug, v.db, v.used, v.procs[u], c);
        StepIs(slug, v, u, c, a, next);
        assert DoneAt(slug, w, schedule, n) == a;
        StaysParked(v.db, a, id);
        OneStep(slug, v, u, c, id);
        hide Step, Advance, Apply, Parked, Owed, About;
      }
    }
  }

  lemma EarlierSteps(slug: Ref -> Table, w: World, schedule: seq<(nat, Choice)>)
    requires schedule != []
    ensures var n := |schedule| - 1;
            forall k | 0 <= k < n :: DoneAt(slug, w, schedule[..n], k) == DoneAt(slug, w, schedule, k)
  {
    var n := |schedule| - 1;
    forall k | 0 <= k < n ensures DoneAt(slug, w, schedule[..n], k) == DoneAt(slug, w, schedule, k) {
      assert schedule[..n][..k] == schedule[..k];
    }
  }

  // So a worker that had not read the row when it was paused back-fills
  // nothing for it, and does not flip or finish it, until it is resumed; one
  // that had read it ends the round it is in.
  lemma PausedIsLeftAlone(slug: Ref -> Table, w: World, schedule: seq<(nat, Choice)>, t: nat, id: nat)
    requires Parked(w.db, id) && t in w.procs && NoResume(slug, w, schedule, id)
    ensures t in Exec(slug, w, schedule).procs
    ensures !About(w.procs[t], id) ==>
              Deeds(slug, w, schedule, t, id) == 0 && !About(Exec(slug, w, schedule).procs[t], id)
    ensures Deeds(slug, w, schedule, t, id) <= 2
  {
    PausedOwesOneRound(slug, w, schedule, t, id);
  }

  // ---- the pause and the resume themselves ----

  function Flagged(db: Db, id: nat, paused: bool): Db
    requires id < |db.migrations|
  {
    db.(migrations := db.migrations[id := db.migrations[id].(paused := paused)])
  }

  // Asking twice in a row sets the flag of the row in progress and nothing else.
  lemma FlagIsSet(slug: Ref -> Table, w: World, u: nat, paused: bool, id: nat)
    requires AtMostOneRunning(w.db) && Running(w.db, id) && u in w.procs && w.procs[u] == PStart(paused)
    ensures var w2 := Step(slug, Step(slug, w, u, Go), u, Go);
            && w2.db == Flagged(w.db, id, paused) && w2.procs == w.procs[u := Done]
            && (paused ==> Parked(w2.db, id))
  {
    assert ActiveId(w.db) == Some(id);
    StepIs(slug, w, u, Go, ARead, PFound(id, paused));
    var w1 := Step(slug, w, u, Go);
    StepIs(slug, w1, u, Go, APause(id, paused), Done);
    assert w1.procs[u := Done] == w.procs[u := Done];
  }

  // A worker left alone with the row back-fills the next batch, or flips and
  // finishes if nothing is missing.
  ghost predicate TakesUp(slug: Ref -> Table, w: World, t: nat, id: nat)
    requires id < |w.db.migrations|
  {
    var m, w3 := w.db.migrations[id], Step(slug, Step(slug, Step(slug, w, t, Go), t, Go), t, Go);
    if Missing(w.db, m.toTable) != {}
    then Missing(w3.db, m.toTable) == Missing(w.db, m.toTable) - AsSet(MissingBatch(w.db, m.toTable))
    else var w4 := Step(slug, w3, t, Go);
         && id < |w4.db.migrations| && w4.db.migrations[id].status == Complete
         && forall r | r in w4.db.providers :: w4.db.providers[r].active <==> r == m.to
  }

  lemma ReadyIsTakenUp(slug: Ref -> Table, w: World, t: nat, id: nat)
    requires id < |w.db.migrations| && Ready(w.db, id) && t in w.procs && w.procs[t] == WIdle
    ensures TakesUp(slug, w, t, id)
  {
    hide Step, Ready, WorkerStep, MissingBatch, Missing, Record, Finish, Activate;
    var table := w.db.migrations[id].toTable;
    EmptyIff(Missing(w.db, table));
    if Missing(w.db, table) != {} {
      AloneIsBatch(slug, w, t, id);
      BatchStep(w.db, id);
      RecordFills(w.db, id, table, AsSet(MissingBatch(w.db, table)));
    } else {
      AloneIsFlip(slug, w, t, id);
      FlipStep(w.db, id);
      FlipIs(w.db, id);
    }
  }

  lemma RecordFills(db: Db, id: nat, table: Table, batch: set<Chunk>)
    requires CanRecord(db, id, table, batch)
    ensures Missing(Record(db, id, table, batch, Backfill), table) == Missing(db, table) - batch
  {
  }

  lemma FlipIs(db: Db, id: nat)
    requires id < |db.migrations| && Running(Activate(db, db.migrations[id].to), id)
    ensures var d := Finish(Activate(db, db.migrations[id].to), id, Complete);
            && id < |d.migrations| && d.migrations[id].status == Complete
            && forall r | r in d.providers :: d.providers[r].active <==> r == db.migrations[id].to
  {
  }

  // Resumed, it is taken up where it stopped.
  lemma ResumedIsTakenUp(slug: Ref -> Table, w: World, u: nat, t: nat, id: nat)
    requires AtMostOneRunning(w.db) && Running(w.db, id) && u in w.procs && w.procs[u] == PStart(false)
    requires t in w.procs && w.procs[t] == WIdle && w.db.migrations[id].toTable in w.db.tables && w.db.providers != map[]
    ensures var w2 := Step(slug, Step(slug, w, u, Go), u, Go); w2.db == Flagged(w.db, id, false) && TakesUp(slug, w2, t, id)
  {
    FlagIsSet(slug, w, u, false, id);
    hide Step, TakesUp;
    var w2 := Step(slug, Step(slug, w, u, Go), u, Go);
    FlaggedIsReady(w.db, id);
    ReadyIsTakenUp(slug, w2, t, id);
  }

  lemma FlaggedIsReady(db: Db, id: nat)
    requires AtMostOneRunning(db) && Running(db, id) && db.migrations[id].toTable in db.tables && db.providers != map[]
    ensures Ready(Flagged(db, id, false), id)
  {
    var d := Flagged(db, id, false);
    forall i: nat | Running(d, i) ensures i == id {
      assert Running(db, i);
    }
    assert Running(d, id);
  }
}
