// How many successful steps a migration costs the back-fill worker, whatever
// the other actors do in between.
module MigrationPace {
  import opened Text
  import opened Migration
  import opened MigrationRuns
  import opened MigrationWorker

  function Batches(m: nat): nat { (m + BATCH_SIZE - 1) / BATCH_SIZE }

  lemma BatchesGrow(m: nat, n: nat)
    requires m <= n
    ensures Batches(m) <= Batches(n)
    ensures n <= m + BATCH_SIZE ==> Batches(n) <= Batches(m) + 1
    ensures Batches(m) == 0 <==> m == 0
  {
  }

  // The batches worker t still has to land in a table, counting the one in hand.
  function Due(w: World, t: nat, table: Table): nat {
    var missing := Missing(w.db, table);
    if t in w.procs && w.procs[t].WBatch? && w.procs[t].table == table
    then 1 + Batches(|missing - w.procs[t].batch|)
    else Batches(|missing|)
  }

  // And the finish, until the row is finished.
  function Owed(w: World, t: nat, id: nat): nat
    requires id < |w.db.migrations|
  {
    Due(w, t, w.db.migrations[id].toTable) + if w.db.migrations[id].status == InProgress then 1 else 0
  }

  // No worker holds more than a batch.
  ghost predicate Fits(w: World) {
    forall t | t in w.procs && w.procs[t].WBatch? :: |w.procs[t].batch| <= BATCH_SIZE
  }

  // Nothing indexes a note or drops the table. Deletions, lazy batches, other
  // workers, pauses, rollbacks, crashes and other migrations may all happen.
  ghost predicate Calm(slug: Ref -> Table, w: World, turn: (nat, Choice), table: Table) {
    turn.0 in w.procs ==>
      var a := Advance(slug, w.db, w.used, w.procs[turn.0], turn.1).0;
      !a.AIndex? && (a.ADrop? ==> a.ref in w.db.providers && w.db.providers[a.ref].table != table)
  }

  ghost predicate CalmRun(slug: Ref -> Table, w: World, schedule: seq<(nat, Choice)>, table: Table)
    decreases |schedule|
  {
    schedule == [] ||
    var n := |schedule| - 1;
    CalmRun(slug, w, schedule[..n], table) && Calm(slug, Exec(slug, w, schedule[..n]), schedule[n], table)
  }

  // A step of worker t that lands a back-fill batch in the table, or completes
  // the row.
  predicate Lands(a: Action, table: Table) { a.ARecord? && a.table == table && a.counter == Backfill }

  ghost predicate Succeeds(slug: Ref -> Table, w: World, turn: (nat, Choice), t: nat, id: nat, table: Table) {
    turn.0 == t && t in w.procs &&
    var a := Advance(slug, w.db, w.used, w.procs[t], turn.1).0;
    Lands(a, table) || a == AFinish(id, Complete)
  }

  ghost function Successes(slug: Ref -> Table, w: World, schedule: seq<(nat, Choice)>, t: nat, id: nat, table: Table): nat
    decreases |schedule|
  {
    if schedule == [] then 0 else
    var n := |schedule| - 1;
    Successes(slug, w, schedule[..n], t, id, table)
    + if Succeeds(slug, Exec(slug, w, schedule[..n]), schedule[n], t, id, table) then 1 else 0
  }

  // ---- one step ----

  lemma FitsStep(slug: Ref -> Table, w: World, turn: (nat, Choice))
    requires Fits(w)
    ensures Fits(Step(slug, w, turn.0, turn.1))
  {
    if turn.0 in w.procs {
      var p := w.procs[turn.0];
      var (a, next) := Advance(slug, w.db, w.used, p, turn.1);
      StepIs(slug, w, turn.0, turn.1, a, next);
      BatchFits(slug, w.db, w.used, p, turn.1);
      hide Advance, Step;
    }
  }

  lemma BatchFits(slug: Ref -> Table, db: Db, used: set<Chunk>, p: Proc, c: Choice)
    ensures var (a, next) := Advance(slug, db, used, p, c);
            next.WBatch? ==>
              && p.WFound? && p.table == next.table && a == ARead && Missing(db, next.table) != {}
              && next.batch == AsSet(MissingBatch(db, next.table)) && |next.batch| <= BATCH_SIZE
  {
    if p.WFound? {
      FoundFits(slug, db, used, p, c);
    } else {
      hide ActiveId, ActiveRef, MissingBatch, AsSet, Missing, CanRecord, CanProvision;
    }
  }

  lemma FoundFits(slug: Ref -> Table, db: Db, used: set<Chunk>, p: Proc, c: Choice)
    requires p.WFound?
    ensures var (a, next) := Advance(slug, db, used, p, c);
            next.WBatch? ==>
              && p.table == next.table && a == ARead && Missing(db, next.table) != {}
              && next.batch == AsSet(MissingBatch(db, next.table)) && |next.batch| <= BATCH_SIZE
  {
    BatchSize(db, p.table);
    hide MissingBatch, AsSet, Missing;
  }

  lemma BatchSize(db: Db, table: Table)
    ensures var missing, batch := Missing(db, table), AsSet(MissingBatch(db, table));
            batch <= missing && |batch| == if |missing| < BATCH_SIZE then |missing| else BATCH_SIZE
  {
    BatchIsMissing(db, table);
    hide AsSet;
  }

  // What the tables lack only shrinks.
  lemma CalmShrinks(db: Db, a: Action, table: Table)
    requires CanApply(db, a) && !a.AIndex? && (a.ADrop? ==> db.providers[a.ref].table != table)
    ensures Missing(Apply(db, a), table) <= Missing(db, table)
  {
  }

  lemma RecordEmpties(db: Db, a: Action, table: Table)
    requires CanApply(db, a) && a.ARecord? && a.table == table
    ensures Missing(Apply(db, a), table) == Missing(db, table) - a.batch
  {
  }

  lemma {:induction false} FewerIn(a: set<Chunk>, b: set<Chunk>)
    requires a <= b
    ensures |a| <= |b|
  {
    assert b == a + (b - a);
  }

  lemma MinusFew(a: set<Chunk>, b: set<Chunk>)
    requires |b| <= BATCH_SIZE
    ensures |a - b| <= |a| <= |a - b| + BATCH_SIZE
  {
    FewerIn(a * b, b);
    assert a == (a - b) + (a * b);
  }

  lemma BatchWrites(slug: Ref -> Table, db: Db, used: set<Chunk>, p: Proc, c: Choice)
    ensures var (a, next) := Advance(slug, db, used, p, c);
            && (a.ARecord? && a.counter == Backfill ==> p == WBatch(a.id, a.table, a.batch))
            && (p.WBatch? ==> next == WIdle && (a == ARead || a == ARecord(p.id, p.table, p.batch, Backfill)))
  {
    hide ActiveId, ActiveRef, MissingBatch, AsSet, Missing;
  }

  lemma DueShrinks(w: World, w': World, t: nat, table: Table)
    requires Missing(w'.db, table) <= Missing(w.db, table)
    requires t in w'.procs <==> t in w.procs
    requires t in w.procs ==> w'.procs[t] == w.procs[t]
    ensures Due(w', t, table) <= Due(w, t, table)
  {
    hide Missing, Batches;
    var missing, missing' := Missing(w.db, table), Missing(w'.db, table);
    FewerIn(missing', missing);
    BatchesGrow(|missing'|, |missing|);
    if t in w.procs && w.procs[t].WBatch? {
      FewerIn(missing' - w.procs[t].batch, missing - w.procs[t].batch);
      BatchesGrow(|missing' - w.procs[t].batch|, |missing - w.procs[t].batch|);
    }
  }

  // The worker takes a batch: what was missing is now in hand or still missing.
  lemma TakingCosts(w: World, w': World, t: nat, table: Table)
    requires t in w.procs && !w.procs[t].WBatch? && w'.db == w.db && Missing(w.db, table) != {}
    requires t in w'.procs && w'.procs[t].WBatch? && w'.procs[t].table == table
    requires w'.procs[t].batch == AsSet(MissingBatch(w.db, table))
    ensures Due(w', t, table) <= Due(w, t, table)
  {
    BatchSize(w.db, table);
    hide Missing, AsSet, MissingBatch, Batches;
    var missing, batch := Missing(w.db, table), AsSet(MissingBatch(w.db, table));
    EmptyIff(missing);
    Part(missing, batch);
    TakeBatch(|missing|, |missing - batch|);
  }

  lemma Part(a: set<Chunk>, b: set<Chunk>)
    requires b <= a
    ensures |a| == |a - b| + |b|
  {
    assert a == (a - b) + b;
  }

  lemma TakeBatch(m: nat, rest: nat)
    requires m > 0 && rest == if m < BATCH_SIZE then 0 else m - BATCH_SIZE
    ensures 1 + Batches(rest) == Batches(m)
  {
  }

  // The worker's batch lands, or is given up.
  lemma LandingPays(w: World, w': World, t: nat, table: Table, landed: bool)
    requires t in w.procs && w.procs[t].WBatch? && w.procs[t].table == table && |w.procs[t].batch| <= BATCH_SIZE
    requires t in w'.procs && w'.procs[t] == WIdle
    requires Missing(w'.db, table) == if landed then Missing(w.db, table) - w.procs[t].batch else Missing(w.db, table)
    ensures (if landed then 1 else 0) + Due(w', t, table) <= Due(w, t, table)
  {
    hide Missing, Batches;
    var missing, batch := Missing(w.db, table), w.procs[t].batch;
    MinusFew(missing, batch);
    BatchesGrow(|missing - batch|, |missing|);
  }

  lemma OwnStep(slug: Ref -> Table, w: World, t: nat, c: Choice, table: Table)
    requires Fits(w) && t in w.procs && Calm(slug, w, (t, c), table)
    ensures var a, w' := Advance(slug, w.db, w.used, w.procs[t], c).0, Step(slug, w, t, c);
            (if Lands(a, table) then 1 else 0) + Due(w', t, table) <= Due(w, t, table)
  {
    var p, w' := w.procs[t], Step(slug, w, t, c);
    var (a, next) := Advance(slug, w.db, w.used, p, c);
    StepIs(slug, w, t, c, a, next);
    BatchFits(slug, w.db, w.used, p, c);
    BatchWrites(slug, w.db, w.used, p, c);
    CalmShrinks(w.db, a, table);
    hide Advance, Step, Missing, MissingBatch, AsSet, Batches, Due;
    if p.WBatch? && p.table == table {
      if a.ARecord? {
        RecordEmpties(w.db, a, table);
      }
      LandingPays(w, w', t, table, a.ARecord?);
    } else if next.WBatch? && next.table == table {
      TakingCosts(w, w', t, table);
    } else {
      DueElsewhere(w, w', t, table);
    }
  }

  lemma DueElsewhere(w: World, w': World, t: nat, table: Table)
    requires t in w.procs && !(w.procs[t].WBatch? && w.procs[t].table == table)
    requires t in w'.procs && !(w'.procs[t].WBatch? && w'.procs[t].table == table)
    requires Missing(w'.db, table) <= Missing(w.db, table)
    ensures Due(w', t, table) <= Due(w, t, table)
  {
    FewerIn(Missing(w'.db, table), Missing(w.db, table));
    BatchesGrow(|Missing(w'.db, table)|, |Missing(w.db, table)|);
  }

  lemma OtherStep(slug: Ref -> Table, w: World, turn: (nat, Choice), t: nat, table: Table)
    requires turn.0 != t && Calm(slug, w, turn, table)
    ensures Due(Step(slug, w, turn.0, turn.1), t, table) <= Due(w, t, table)
  {
    var w' := Step(slug, w, turn.0, turn.1);
    if turn.0 in w.procs {
      var (a, next) := Advance(slug, w.db, w.used, w.procs[turn.0], turn.1);
      StepIs(slug, w, turn.0, turn.1, a, next);
      CalmShrinks(w.db, a, table);
      hide Advance, Step, Missing;
      DueShrinks(w, w', t, table);
    }
  }

  // A row is finished once.
  lemma RowStep(slug: Ref -> Table, w: World, turn: (nat, Choice), id: nat)
    requires id < |w.db.migrations|
    ensures var w' := Step(slug, w, turn.0, turn.1);
            && id < |w'.db.migrations| && w'.db.migrations[id].toTable == w.db.migrations[id].toTable
            && (w'.db.migrations[id].status == InProgress ==> w.db.migrations[id].status == InProgress)
            && (turn.0 in w.procs && Advance(slug, w.db, w.used, w.procs[turn.0], turn.1).0 == AFinish(id, Complete) ==>
                  w.db.migrations[id].status == InProgress && w'.db.migrations[id].status == Complete)
  {
    if turn.0 in w.procs {
      var (a, next) := Advance(slug, w.db, w.used, w.procs[turn.0], turn.1);
      StepIs(slug, w, turn.0, turn.1, a, next);
      hide Advance, Step;
      TerminalStays(w.db, a, id);
    }
  }

  lemma StepPays(slug: Ref -> Table, w: World, turn: (nat, Choice), t: nat, id: nat)
    requires Fits(w) && id < |w.db.migrations| && Calm(slug, w, turn, w.db.migrations[id].toTable)
    ensures var table, w' := w.db.migrations[id].toTable, Step(slug, w, turn.0, turn.1);
            && id < |w'.db.migrations| && w'.db.migrations[id].toTable == table
            && (if Succeeds(slug, w, turn, t, id, table) then 1 else 0) + Owed(w', t, id) <= Owed(w, t, id)
  {
    var table := w.db.migrations[id].toTable;
    RowStep(slug, w, turn, id);
    if turn.0 == t && t in w.procs {
      OwnStep(slug, w, t, turn.1, table);
    } else if turn.0 != t {
      OtherStep(slug, w, turn, t, table);
    }
    hide Advance, Due;
  }

  // ---- every run ----

  // Whatever the others do, short of indexing notes or dropping the table: the
  // successes of a worker and what it still owes never exceed what it owed.
  lemma {:induction false} SuccessesAreOwed(slug: Ref -> Table, w: World, schedule: seq<(nat, Choice)>, t: nat, id: nat)
    requires Fits(w) && id < |w.db.migrations| && CalmRun(slug, w, schedule, w.db.migrations[id].toTable)
    ensures var table, end := w.db.migrations[id].toTable, Exec(slug, w, schedule);
            && Fits(end) && id < |end.db.migrations| && end.db.migrations[id].toTable == table
            && Successes(slug, w, schedule, t, id, table) + Owed(end, t, id) <= Owed(w, t, id)
    decreases |schedule|
  {
    if schedule != [] {
      var n := |schedule| - 1;
      var v := Exec(slug, w, schedule[..n]);
      SuccessesAreOwed(slug, w, schedule[..n], t, id);
      StepPays(slug, v, schedule[n], t, id);
      FitsStep(slug, v, schedule[n]);
      hide Step, Succeeds, Calm, Fits, Owed;
    }
  }

  lemma {:induction false} EveryRunFits(slug: Ref -> Table, w: World, schedule: seq<(nat, Choice)>)
    requires Fits(w)
    ensures Fits(Exec(slug, w, schedule))
    decreases |schedule|
  {
    if schedule != [] {
      var n := |schedule| - 1;
      EveryRunFits(slug, w, schedule[..n]);
      FitsStep(slug, Exec(slug, w, schedule[..n]), schedule[n]);
      hide Step, Fits;
    }
  }

  // From any state a fresh daemon reaches, with m chunks missing and no batch in
  // hand, a worker succeeds at most ceil(m / 32) + 1 times while no note is
  // indexed; if it succeeds that often nothing is missing and the row is finished.
  lemma FinishesWithinBound(slug: Ref -> Table, w0: World, before: seq<(nat, Choice)>, schedule: seq<(nat, Choice)>,
                            t: nat, id: nat)
    requires Initial(slug, w0)
    requires var w := Exec(slug, w0, before);
             && id < |w.db.migrations| && !(t in w.procs && w.procs[t].WBatch?)
             && CalmRun(slug, w, schedule, w.db.migrations[id].toTable)
    ensures var w := Exec(slug, w0, before); var end := Exec(slug, w, schedule); var table := w.db.migrations[id].toTable;
            var bound, done := Batches(|Missing(w.db, table)|) + 1, Successes(slug, w, schedule, t, id, table);
            && done <= bound && id < |end.db.migrations|
            && (done == bound ==> Missing(end.db, table) == {} && end.db.migrations[id].status != InProgress)
  {
    var w := Exec(slug, w0, before);
    var end := Exec(slug, w, schedule);
    var table := w.db.migrations[id].toTable;
    EveryRunFits(slug, w0, before);
    SuccessesAreOwed(slug, w, schedule, t, id);
    hide Exec, Successes, CalmRun, Missing, Batches, Fits, Initial;
    BatchesGrow(|Missing(end.db, table)|, |Missing(end.db, table)|);
    EmptyIff(Missing(end.db, table));
  }

  // ---- the bound is met ----

  lemma {:induction false} SuccessesAppend(slug: Ref -> Table, w: World, a: seq<(nat, Choice)>, b: seq<(nat, Choice)>,
                                           t: nat, id: nat, table: Table)
    ensures Successes(slug, w, a + b, t, id, table) ==
            Successes(slug, w, a, t, id, table) + Successes(slug, Exec(slug, w, a), b, t, id, table)
    decreases |b|
  {
    if b == [] {
      assert a + b == a;
    } else {
      var n := |b| - 1;
      assert (a + b)[..|a| + n] == a + b[..n];
      SuccessesAppend(slug, w, a, b[..n], t, id, table);
      ExecAppend(slug, w, a, b[..n]);
      hide Exec, Succeeds;
    }
  }

  lemma {:induction false} TurnsAppend(t: nat, m: nat, n: nat)
    ensures Turns(t, m + n) == Turns(t, m) + Turns(t, n)
  {
    if n > 0 {
      TurnsAppend(t, m, n - 1);
      assert Turns(t, m) + (Turns(t, n - 1) + [(t, Go)]) == (Turns(t, m) + Turns(t, n - 1)) + [(t, Go)];
    }
  }

  lemma SuccessesTurn(slug: Ref -> Table, w: World, t: nat, n: nat, id: nat, table: Table)
    ensures Successes(slug, w, Turns(t, n + 1), t, id, table) ==
            Successes(slug, w, Turns(t, n), t, id, table)
            + if Succeeds(slug, Exec(slug, w, Turns(t, n)), (t, Go), t, id, table) then 1 else 0
  {
    assert Turns(t, n + 1)[..|Turns(t, n)|] == Turns(t, n);
    hide Exec, Succeeds;
  }

  // Left alone: three steps land a batch.
  lemma BatchAlone(slug: Ref -> Table, w: World, t: nat, id: nat)
    requires t in w.procs && w.procs[t] == WIdle && Ready(w.db, id) && Left(w.db, id) > 0
    ensures var w' := Exec(slug, w, Turns(t, 3));
            && w'.db == WorkerStep(w.db, NoFault).0 && t in w'.procs && w'.procs[t] == WIdle
            && Successes(slug, w, Turns(t, 3), t, id, w.db.migrations[id].toTable) == 1
  {
    hide *;
    BatchStep(w.db, id);
    var m := w.db.migrations[id];
    var batch := AsSet(MissingBatch(w.db, m.toTable));
    var w1, w2 := Exec(slug, w, Turns(t, 1)), Exec(slug, w, Turns(t, 2));
    ExecTurns(slug, w, t, 0);
    ExecTurns(slug, w, t, 1);
    ExecTurns(slug, w, t, 2);
    ExecTurns(slug, w, t, 3);
    FindsWork(slug, w, t, id);
    TakesBatch(slug, w1, t, id, m.to, m.toTable);
    LandsBatch(slug, w2, t, id, m.toTable, batch);
    NoneYet(slug, w, t, id, m.toTable);
    SuccessesTurn(slug, w, t, 0, id, m.toTable);
    SuccessesTurn(slug, w, t, 1, id, m.toTable);
    SuccessesTurn(slug, w, t, 2, id, m.toTable);
    OnlyWrites(slug, w, t, id, m.toTable);
    OnlyWrites(slug, w1, t, id, m.toTable);
    LandingSucceeds(slug, w2, t, id, m.toTable, batch);
  }

  lemma NoneYet(slug: Ref -> Table, w: World, t: nat, id: nat, table: Table)
    ensures Successes(slug, w, Turns(t, 0), t, id, table) == 0
  {
  }

  lemma OnlyWrites(slug: Ref -> Table, w: World, t: nat, id: nat, table: Table)
    ensures t in w.procs && (w.procs[t].WIdle? || w.procs[t].WFound? || w.procs[t].WFlip?) ==>
              !Succeeds(slug, w, (t, Go), t, id, table)
  {
  }

  lemma LandingSucceeds(slug: Ref -> Table, w: World, t: nat, id: nat, table: Table, batch: set<Chunk>)
    requires t in w.procs && w.procs[t] == WBatch(id, table, batch) && CanRecord(w.db, id, table, batch)
    ensures Succeeds(slug, w, (t, Go), t, id, table)
  {
  }

  // And four complete the row.
  lemma FlipAlone(slug: Ref -> Table, w: World, t: nat, id: nat)
    requires t in w.procs && w.procs[t] == WIdle && Ready(w.db, id) && Left(w.db, id) == 0
    ensures var w' := Exec(slug, w, Turns(t, 4));
            && w'.db == WorkerStep(w.db, NoFault).0 && t in w'.procs && w'.procs[t] == WIdle
            && Successes(slug, w, Turns(t, 4), t, id, w.db.migrations[id].toTable) == 1
  {
    hide *;
    FlipStep(w.db, id);
    var m := w.db.migrations[id];
    var w1, w2 := Exec(slug, w, Turns(t, 1)), Exec(slug, w, Turns(t, 2));
    var w3 := Exec(slug, w, Turns(t, 3));
    ExecTurns(slug, w, t, 0);
    ExecTurns(slug, w, t, 1);
    ExecTurns(slug, w, t, 2);
    ExecTurns(slug, w, t, 3);
    ExecTurns(slug, w, t, 4);
    FindsWork(slug, w, t, id);
    SeesCover(slug, w1, t, id, m.to, m.toTable);
    Flips(slug, w2, t, id, m.to);
    FlipWaits(slug, w2, t, id, m.to);
    NoneYet(slug, w, t, id, m.toTable);
    SuccessesTurn(slug, w, t, 0, id, m.toTable);
    SuccessesTurn(slug, w, t, 1, id, m.toTable);
    SuccessesTurn(slug, w, t, 2, id, m.toTable);
    SuccessesTurn(slug, w, t, 3, id, m.toTable);
    OnlyWrites(slug, w, t, id, m.toTable);
    OnlyWrites(slug, w1, t, id, m.toTable);
    OnlyWrites(slug, w2, t, id, m.toTable);
    FinishSucceeds(slug, w3, t, id, m.toTable);
  }

  lemma FlipWaits(slug: Ref -> Table, w: World, t: nat, id: nat, to: Ref)
    requires t in w.procs && w.procs[t] == WFlip(id, to) && Running(w.db, id) && w.db.providers != map[]
    ensures var w' := Step(slug, w, t, Go); t in w'.procs && w'.procs[t] == WFinish(id) && Running(w'.db, id)
  {
    StepIs(slug, w, t, Go, AActivate(to), WFinish(id));
    hide Step, Advance;
  }

  lemma FinishSucceeds(slug: Ref -> Table, w: World, t: nat, id: nat, table: Table)
    requires t in w.procs && w.procs[t] == WFinish(id) && Running(w.db, id)
    ensures Succeeds(slug, w, (t, Go), t, id, table)
  {
  }

  // A worker nobody disturbs meets the bound: ceil(m / 32) batches of three
  // transactions and four more, and the row is complete.
  lemma {:induction false} AloneMeetsTheBound(slug: Ref -> Table, w: World, t: nat, id: nat)
    requires t in w.procs && w.procs[t] == WIdle && Ready(w.db, id)
    ensures var n := Batches(Left(w.db, id)); var run := Turns(t, 3 * n + 4); var end := Exec(slug, w, run);
            && Successes(slug, w, run, t, id, w.db.migrations[id].toTable) == n + 1
            && id < |end.db.migrations| && end.db.migrations[id].status == Complete
    decreases Left(w.db, id)
  {
    hide *;
    ReadyRow(w.db, id);
    if Left(w.db, id) == 0 {
      FlipAlone(slug, w, t, id);
      FlipStep(w.db, id);
      NoBatches(w.db, id);
    } else {
      var v, n := Exec(slug, w, Turns(t, 3)), Batches(Left(w.db, id));
      BatchAlone(slug, w, t, id);
      OneBatchLess(w.db, id);
      AloneMeetsTheBound(slug, v, t, id);
      var rest := Turns(t, 3 * (n - 1) + 4);
      TurnsAppend(t, 3, 3 * (n - 1) + 4);
      ExecAppend(slug, w, Turns(t, 3), rest);
      SuccessesAppend(slug, w, Turns(t, 3), rest, t, id, w.db.migrations[id].toTable);
    }
  }

  lemma ReadyRow(db: Db, id: nat)
    requires Ready(db, id)
    ensures id < |db.migrations|
  {
  }

  lemma NoBatches(db: Db, id: nat)
    requires Ready(db, id) && Left(db, id) == 0
    ensures var after := WorkerStep(db, NoFault).0;
            Batches(Left(db, id)) == 0 && id < |after.migrations| && after.migrations[id].status == Complete
  {
    FlipStep(db, id);
    hide WorkerStep;
  }

  lemma OneBatchLess(db: Db, id: nat)
    requires Ready(db, id) && Left(db, id) > 0
    ensures var db' := WorkerStep(db, NoFault).0;
            && Ready(db', id) && id < |db'.migrations| && db'.migrations[id].toTable == db.migrations[id].toTable
            && Left(db', id) < Left(db, id) && Batches(Left(db, id)) == Batches(Left(db', id)) + 1
  {
    StepDrains(db, id, NoFault);
    SameTable(db, id);
    hide WorkerStep, Left, Batches;
    TakeBatch(Left(db, id), if Left(db, id) < BATCH_SIZE then 0 else Left(db, id) - BATCH_SIZE);
  }

  lemma SameTable(db: Db, id: nat)
    requires Ready(db, id) && Left(db, id) > 0
    ensures var db' := WorkerStep(db, NoFault).0;
            id < |db'.migrations| && db'.migrations[id].toTable == db.migrations[id].toTable
  {
    BatchStep(db, id);
    hide WorkerStep;
  }
}
