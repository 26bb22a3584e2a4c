// What the migration does not promise: exactly when each promise holds, and runs
// of a fresh daemon that break it.
module MigrationProvisos {
  import opened Text
  import opened Migration
  import opened MigrationRuns

  // ---- exactly when ----

  // SetActiveProvider leaves an active provider exactly when the name is
  // registered; otherwise it clears every flag and still succeeds.
  lemma ActivateLeavesOneIff(db: Db, ref: Ref)
    ensures (exists r :: r in db.providers && Activate(db, ref).providers[r].active) <==> ref in db.providers
  {
    if ref in db.providers {
      assert Activate(db, ref).providers[ref].active;
    }
  }

  ghost predicate DistinctTables(db: Db) {
    forall r, q | r in db.providers && q in db.providers && db.providers[r].table == db.providers[q].table :: r == q
  }

  // A prune loses nothing exactly when every chunk has a row with another
  // provider; its own two checks do not ask that.
  lemma PruneIsSafeIff(db: Db, ref: Ref)
    requires ref in db.providers && DistinctTables(db)
    ensures Retrievable(Drop(db, ref)) <==> forall c | c in db.chunks :: exists r :: r != ref && Reaches(db, r, c)
  {
    var after := Drop(db, ref);
    forall r, c ensures Reaches(after, r, c) <==> r != ref && Reaches(db, r, c) {
      DropLeaves(db, ref, r, c);
    }
  }

  lemma DropLeaves(db: Db, ref: Ref, r: Ref, c: Chunk)
    requires ref in db.providers && DistinctTables(db)
    ensures Reaches(Drop(db, ref), r, c) <==> r != ref && Reaches(db, r, c)
  {
  }

  // This step is a rollback finishing the row.
  ghost predicate RollsBack(w: World, turn: (nat, Choice), id: nat) {
    turn.0 in w.procs && w.procs[turn.0] == RFinish(id) && turn.1 != Fail && Running(w.db, id)
  }

  ghost predicate RolledBackIn(slug: Ref -> Table, w: World, schedule: seq<(nat, Choice)>, id: nat)
    decreases |schedule|
  {
    schedule != [] &&
    var n := |schedule| - 1;
    RolledBackIn(slug, w, schedule[..n], id) || RollsBack(Exec(slug, w, schedule[..n]), schedule[n], id)
  }

  function StatusOf(w: World, id: nat): Status
    requires id < |w.db.migrations|
  {
    w.db.migrations[id].status
  }

  // A row becomes rolled back by a rollback, and leaves no other way than by
  // that or by some worker's finish.
  lemma StatusStep(slug: Ref -> Table, w: World, turn: (nat, Choice), id: nat)
    requires id < |w.db.migrations|
    ensures var w' := Step(slug, w, turn.0, turn.1);
            && id < |w'.db.migrations|
            && (StatusOf(w', id) == RolledBack <==> StatusOf(w, id) == RolledBack || RollsBack(w, turn, id))
  {
    if turn.0 in w.procs {
      var p := w.procs[turn.0];
      FinishesComeFrom(slug, w.db, w.used, p, turn.1);
      AdvanceApplies(slug, w.db, w.used, p, turn.1);
      var a := Advance(slug, w.db, w.used, p, turn.1).0;
      StatusChanges(w.db, a, id);
      hide Advance, Apply, CanApply;
    }
  }

  lemma FinishesComeFrom(slug: Ref -> Table, db: Db, used: set<Chunk>, p: Proc, c: Choice)
    ensures var a := Advance(slug, db, used, p, c).0;
            && (a.AFinish? ==> a == AFinish(a.id, Complete) || p == RFinish(a.id))
            && (forall id: nat :: a == AFinish(id, RolledBack) <==> p == RFinish(id) && c != Fail && Running(db, id))
  {
  }

  lemma StatusChanges(db: Db, a: Action, id: nat)
    requires CanApply(db, a) && id < |db.migrations|
    ensures id < |Apply(db, a).migrations|
    ensures Apply(db, a).migrations[id].status ==
            if a.AFinish? && a.id == id then a.status else db.migrations[id].status
  {
  }

  // In any run a row ends rolled back exactly when it began so or a rollback got
  // in.
  lemma {:induction false} RolledBackIff(slug: Ref -> Table, w: World, schedule: seq<(nat, Choice)>, id: nat)
    requires id < |w.db.migrations|
    ensures var end := Exec(slug, w, schedule);
            && id < |end.db.migrations|
            && (StatusOf(end, id) == RolledBack <==> StatusOf(w, id) == RolledBack || RolledBackIn(slug, w, schedule, id))
    decreases |schedule|
  {
    if schedule != [] {
      var n := |schedule| - 1;
      RolledBackIff(slug, w, schedule[..n], id);
      StatusStep(slug, Exec(slug, w, schedule[..n]), schedule[n], id);
      hide Step, StatusOf, RollsBack;
    }
  }

  // Steps of everyone but t.
  predicate Spares(schedule: seq<(nat, Choice)>, t: nat) { forall k | 0 <= k < |schedule| :: schedule[k].0 != t }

  lemma OthersWait(slug: Ref -> Table, w: World, turn: (nat, Choice), t: nat)
    requires t in w.procs && turn.0 != t
    ensures var w' := Step(slug, w, turn.0, turn.1); t in w'.procs && w'.procs[t] == w.procs[t]
  {
  }

  lemma {:induction false} Waiting(slug: Ref -> Table, w: World, schedule: seq<(nat, Choice)>, t: nat)
    requires t in w.procs && Spares(schedule, t)
    ensures var end := Exec(slug, w, schedule); t in end.procs && end.procs[t] == w.procs[t]
    decreases |schedule|
  {
    if schedule != [] {
      var n := |schedule| - 1;
      Waiting(slug, w, schedule[..n], t);
      OthersWait(slug, Exec(slug, w, schedule[..n]), schedule[n], t);
      hide Step;
    }
  }

  // ---- the end of a migration ----

  // A worker's last round, with anything of the others between its four
  // transactions: it reads the row, finds nothing missing, flips, finishes.
  function Reads(t: nat, a: seq<(nat, Choice)>): seq<(nat, Choice)> { [(t, Go)] + a }

  function Checks(t: nat, a: seq<(nat, Choice)>, b: seq<(nat, Choice)>): seq<(nat, Choice)> { Reads(t, a) + [(t, Go)] + b }

  function Round(t: nat, a: seq<(nat, Choice)>, b: seq<(nat, Choice)>, c: seq<(nat, Choice)>): seq<(nat, Choice)> {
    Checks(t, a, b) + [(t, Go)] + c + [(t, Go)]
  }

  // t's round goes through: it reads migration id, finds its to-table covered
  // after `a`, and some provider to flip after `b`.
  ghost predicate GoesThrough(slug: Ref -> Table, w: World, t: nat, id: nat, a: seq<(nat, Choice)>, b: seq<(nat, Choice)>) {
    && t in w.procs && w.procs[t] == WIdle && ActiveId(w.db) == Some(id) && !w.db.migrations[id].paused
    && (var v := Exec(slug, w, Reads(t, a)); Covered(v.db, w.db.migrations[id].toTable))
    && Exec(slug, w, Checks(t, a, b)).db.providers != map[]
  }

  lemma RoundReads(slug: Ref -> Table, w: World, t: nat, id: nat, a: seq<(nat, Choice)>)
    requires t in w.procs && w.procs[t] == WIdle && ActiveId(w.db) == Some(id) && !w.db.migrations[id].paused && Spares(a, t)
    ensures var m, v := w.db.migrations[id], Exec(slug, w, Reads(t, a));
            t in v.procs && v.procs[t] == WFound(id, m.to, m.toTable)
  {
    var m := w.db.migrations[id];
    ExecAppend(slug, w, [(t, Go)], a);
    assert [] + [(t, Go)] == [(t, Go)];
    ExecSnoc(slug, w, [], t, Go);
    StepIs(slug, w, t, Go, ARead, WFound(id, m.to, m.toTable));
    var read := Step(slug, w, t, Go);
    hide Step, Advance, ActiveId;
    Waiting(slug, read, a, t);
  }

  lemma RoundChecks(slug: Ref -> Table, w: World, t: nat, id: nat, a: seq<(nat, Choice)>, b: seq<(nat, Choice)>)
    requires GoesThrough(slug, w, t, id, a, b) && Spares(a, t) && Spares(b, t)
    ensures var v := Exec(slug, w, Checks(t, a, b)); t in v.procs && v.procs[t] == WFlip(id, w.db.migrations[id].to)
  {
    var m, v := w.db.migrations[id], Exec(slug, w, Reads(t, a));
    RoundReads(slug, w, t, id, a);
    assert Missing(v.db, m.toTable) == {};
    StepIs(slug, v, t, Go, ARead, WFlip(id, m.to));
    hide Step, Advance, ActiveId, Exec, Reads;
    ExecSnoc(slug, w, Reads(t, a), t, Go);
    Waiting(slug, Step(slug, v, t, Go), b, t);
    ExecAppend(slug, w, Reads(t, a) + [(t, Go)], b);
  }

  // The step activates no provider but r and does not drop r.
  ghost predicate LeavesActive(slug: Ref -> Table, w: World, turn: (nat, Choice), r: Ref) {
    turn.0 in w.procs ==>
      var a := Advance(slug, w.db, w.used, w.procs[turn.0], turn.1).0;
      (MakesActive(a) ==> a.ref == r) && (a.ADrop? ==> a.ref != r)
  }

  // The step activates r, which is registered or is so registered by it.
  ghost predicate Activates(slug: Ref -> Table, w: World, turn: (nat, Choice), r: Ref) {
    turn.0 in w.procs &&
    var a := Advance(slug, w.db, w.used, w.procs[turn.0], turn.1).0;
    MakesActive(a) && a.ref == r && (a.ABoot? || r in w.db.providers)
  }

  // No step from the k-th on takes r's flag away.
  ghost predicate LeavesFrom(slug: Ref -> Table, w: World, schedule: seq<(nat, Choice)>, k: nat, r: Ref) {
    forall j | k <= j < |schedule| :: LeavesActive(slug, Exec(slug, w, schedule[..j]), schedule[j], r)
  }

  // r was activated in the run, and nothing has taken its flag since.
  ghost predicate ActivatedIn(slug: Ref -> Table, w: World, schedule: seq<(nat, Choice)>, r: Ref) {
    exists k | 0 <= k < |schedule| ::
      Activates(slug, Exec(slug, w, schedule[..k]), schedule[k], r) && LeavesFrom(slug, w, schedule, k + 1, r)
  }

  predicate IsActive(db: Db, r: Ref) { r in db.providers && db.providers[r].active }

  lemma ActiveStep(slug: Ref -> Table, w: World, turn: (nat, Choice), r: Ref)
    ensures IsActive(Step(slug, w, turn.0, turn.1).db, r) <==>
            Activates(slug, w, turn, r) || (IsActive(w.db, r) && LeavesActive(slug, w, turn, r))
  {
    if turn.0 in w.procs {
      var (a, next) := Advance(slug, w.db, w.used, w.procs[turn.0], turn.1);
      StepIs(slug, w, turn.0, turn.1, a, next);
      hide Advance, Step;
    }
  }

  // In any run r is active at the end exactly when it was activated in the run,
  // or active before it, and nothing has taken its flag since.
  lemma {:induction false} ActiveIff(slug: Ref -> Table, w: World, schedule: seq<(nat, Choice)>, r: Ref)
    ensures IsActive(Exec(slug, w, schedule).db, r) <==>
            ActivatedIn(slug, w, schedule, r) || (IsActive(w.db, r) && LeavesFrom(slug, w, schedule, 0, r))
    decreases |schedule|
  {
    hide Step, Activates, LeavesActive;
    if schedule != [] {
      var n := |schedule| - 1;
      ActiveIff(slug, w, schedule[..n], r);
      ActiveStep(slug, Exec(slug, w, schedule[..n]), schedule[n], r);
      OneMoreTurn(slug, w, schedule, r);
    }
  }

  lemma OneMoreTurn(slug: Ref -> Table, w: World, schedule: seq<(nat, Choice)>, r: Ref)
    requires schedule != []
    ensures var n := |schedule| - 1; var v := Exec(slug, w, schedule[..n]);
            && (ActivatedIn(slug, w, schedule, r) <==>
                  Activates(slug, v, schedule[n], r)
                  || (ActivatedIn(slug, w, schedule[..n], r) && LeavesActive(slug, v, schedule[n], r)))
            && (LeavesFrom(slug, w, schedule, 0, r) <==>
                  LeavesFrom(slug, w, schedule[..n], 0, r) && LeavesActive(slug, v, schedule[n], r))
  {
    hide Exec, Activates, LeavesActive, LeavesFrom, ActivatedIn;
    var n := |schedule| - 1;
    var v := Exec(slug, w, schedule[..n]);
    LeavesOneMore(slug, w, schedule, 0, r);
    if ActivatedIn(slug, w, schedule, r) {
      ActivatedBefore(slug, w, schedule, r);
    }
    if Activates(slug, v, schedule[n], r) {
      ActivatedLast(slug, w, schedule, r);
    } else if ActivatedIn(slug, w, schedule[..n], r) && LeavesActive(slug, v, schedule[n], r) {
      ActivatedStill(slug, w, schedule, r);
    }
  }

  lemma ActivatedLast(slug: Ref -> Table, w: World, schedule: seq<(nat, Choice)>, r: Ref)
    requires schedule != []
    requires var n := |schedule| - 1; Activates(slug, Exec(slug, w, schedule[..n]), schedule[n], r)
    ensures ActivatedIn(slug, w, schedule, r)
  {
    hide Exec, Activates, LeavesActive;
    assert LeavesFrom(slug, w, schedule, |schedule|, r);
  }

  lemma ActivatedStill(slug: Ref -> Table, w: World, schedule: seq<(nat, Choice)>, r: Ref)
    requires schedule != [] && ActivatedIn(slug, w, schedule[..|schedule| - 1], r)
    requires var n := |schedule| - 1; LeavesActive(slug, Exec(slug, w, schedule[..n]), schedule[n], r)
    ensures ActivatedIn(slug, w, schedule, r)
  {
    hide Exec, Activates, LeavesFrom, LeavesActive;
    var n := |schedule| - 1;
    var init := schedule[..n];
    var k :| 0 <= k < n && Activates(slug, Exec(slug, w, init[..k]), init[k], r) && LeavesFrom(slug, w, init, k + 1, r);
    assert init[..k] == schedule[..k] && init[k] == schedule[k];
    LeavesOneMore(slug, w, schedule, k + 1, r);
  }

  lemma ActivatedBefore(slug: Ref -> Table, w: World, schedule: seq<(nat, Choice)>, r: Ref)
    requires schedule != [] && ActivatedIn(slug, w, schedule, r)
    ensures var n := |schedule| - 1; var v := Exec(slug, w, schedule[..n]);
            Activates(slug, v, schedule[n], r)
            || (ActivatedIn(slug, w, schedule[..n], r) && LeavesActive(slug, v, schedule[n], r))
  {
    hide Exec, Activates, LeavesFrom, LeavesActive;
    var n := |schedule| - 1;
    var k :| 0 <= k <= n && Activates(slug, Exec(slug, w, schedule[..k]), schedule[k], r)
             && LeavesFrom(slug, w, schedule, k + 1, r);
    if k < n {
      assert schedule[..n][..k] == schedule[..k] && schedule[..n][k] == schedule[k];
      LeavesOneMore(slug, w, schedule, k + 1, r);
    }
  }

  lemma LeavesOneMore(slug: Ref -> Table, w: World, schedule: seq<(nat, Choice)>, k: nat, r: Ref)
    requires schedule != [] && k < |schedule|
    ensures var n := |schedule| - 1;
            LeavesFrom(slug, w, schedule, k, r) <==>
              LeavesFrom(slug, w, schedule[..n], k, r) && LeavesActive(slug, Exec(slug, w, schedule[..n]), schedule[n], r)
  {
    hide Exec, LeavesActive;
    var n := |schedule| - 1;
    forall j | k <= j < n
      ensures LeavesActive(slug, Exec(slug, w, schedule[..n][..j]), schedule[..n][j], r)
              <==> LeavesActive(slug, Exec(slug, w, schedule[..j]), schedule[j], r)
    {
      assert schedule[..n][..j] == schedule[..j];
    }
  }

  // Whatever others do in between, a round that goes through leaves the row
  // complete exactly when no rollback got in since the row was read, and rolled
  // back otherwise. Either way the to-provider, if registered at the flip, is
  // active at the end unless something took its flag since.
  lemma FinishCompletesIff(slug: Ref -> Table, w: World, t: nat, id: nat,
                           a: seq<(nat, Choice)>, b: seq<(nat, Choice)>, c: seq<(nat, Choice)>)
    requires GoesThrough(slug, w, t, id, a, b) && Spares(a, t) && Spares(b, t) && Spares(c, t)
    ensures var end := Exec(slug, w, Round(t, a, b, c));
            && id < |end.db.migrations|
            && StatusOf(end, id) == if RolledBackIn(slug, w, Round(t, a, b, c), id) then RolledBack else Complete
    ensures var to, end := w.db.migrations[id].to, Exec(slug, w, Round(t, a, b, c));
            var flipped := Exec(slug, w, Checks(t, a, b) + [(t, Go)]);
            IsActive(end.db, to) <==>
              || ActivatedIn(slug, flipped, c, to)
              || (to in Exec(slug, w, Checks(t, a, b)).db.providers && LeavesFrom(slug, flipped, c, 0, to))
  {
    var to, v := w.db.migrations[id].to, Exec(slug, w, Checks(t, a, b));
    RoundChecks(slug, w, t, id, a, b);
    RolledBackIff(slug, w, Round(t, a, b, c), id);
    assert Running(w.db, id);
    hide GoesThrough, Exec, Checks, RolledBackIn, LeavesFrom, ActivatedIn, ActiveId;
    ExecSnoc(slug, w, Checks(t, a, b), t, Go);
    FlipsTo(slug, v, t, id, to);
    var flipped := Exec(slug, w, Checks(t, a, b) + [(t, Go)]);
    Waiting(slug, flipped, c, t);
    ExecAppend(slug, w, Checks(t, a, b) + [(t, Go)], c);
    ExecSnoc(slug, w, Checks(t, a, b) + [(t, Go)] + c, t, Go);
    Finishes(slug, Exec(slug, flipped, c), t, id);
    ActiveIff(slug, flipped, c, to);
  }

  lemma FlipsTo(slug: Ref -> Table, w: World, t: nat, id: nat, to: Ref)
    requires t in w.procs && w.procs[t] == WFlip(id, to) && w.db.providers != map[]
    ensures var w' := Step(slug, w, t, Go);
            && t in w'.procs && w'.procs[t] == WFinish(id) && w'.db == Activate(w.db, to)
            && (IsActive(w'.db, to) <==> to in w.db.providers)
  {
    StepIs(slug, w, t, Go, AActivate(to), WFinish(id));
    hide Step, Advance;
  }

  // The finish leaves no row it was for in progress, and no flag changed.
  lemma Finishes(slug: Ref -> Table, w: World, t: nat, id: nat)
    requires t in w.procs && w.procs[t] == WFinish(id)
    ensures var w' := Step(slug, w, t, Go); !Running(w'.db, id) && w'.db.providers == w.db.providers
  {
    if Running(w.db, id) {
      StepIs(slug, w, t, Go, AFinish(id, Complete), WIdle);
    } else {
      StepIs(slug, w, t, Go, ARead, WIdle);
    }
    hide Step, Advance;
  }

  // ---- a prune's whole life ----

  // A prune that has passed both its checks, whatever others did between its
  // transactions, drops the active provider exactly when its ref was activated
  // since the first check, or that check failed unanswered with ref active, and
  // nothing has taken the flag since. Then no provider is active.
  lemma PruneDropsActiveIff(slug: Ref -> Table, w: World, t: nat, ref: Ref, c1: Choice, a: seq<(nat, Choice)>,
                            c2: Choice, b: seq<(nat, Choice)>)
    requires AtMostOneActive(w.db) && t in w.procs && w.procs[t] == XStart(ref) && Spares(a, t) && Spares(b, t)
    requires var life := [(t, c1)] + a + [(t, c2)] + b; var v := Exec(slug, w, life);
             t in v.procs && v.procs[t] == XDrop(ref)
    ensures var life := [(t, c1)] + a + [(t, c2)] + b; var v := Exec(slug, w, life);
            var end := Step(slug, v, t, Go);
            && (IsActive(v.db, ref) <==>
                  || ActivatedIn(slug, w, life, ref)
                  || (c1 == Mute && IsActive(w.db, ref) && LeavesFrom(slug, w, life, 0, ref)))
            && AtMostOneActive(v.db) && (forall r :: IsActive(end.db, r) <==> IsActive(v.db, r) && r != ref)
  {
    var life := [(t, c1)] + a + [(t, c2)] + b;
    var v := Exec(slug, w, life);
    PassedFirst(slug, w, t, ref, c1, a, c2, b);
    ActiveIff(slug, w, life, ref);
    OneActiveInRuns(slug, w, life);
    FirstCheck(slug, w, t, ref, c1);
    hide Exec, Step, LeavesFrom, ActivatedIn;
    DropTakes(slug, v, t, ref);
  }

  lemma {:induction false} OneActiveInRuns(slug: Ref -> Table, w: World, schedule: seq<(nat, Choice)>)
    requires AtMostOneActive(w.db)
    ensures AtMostOneActive(Exec(slug, w, schedule).db)
    decreases |schedule|
  {
    if schedule != [] {
      var n := |schedule| - 1;
      var v := Exec(slug, w, schedule[..n]);
      var (t, c) := schedule[n];
      OneActiveInRuns(slug, w, schedule[..n]);
      hide AtMostOneActive;
      if t in v.procs {
        var (a, next) := Advance(slug, v.db, v.used, v.procs[t], c);
        StepIs(slug, v, t, c, a, next);
        hide Advance, Step;
        KeepsOneActive(v.db, a);
      }
    }
  }

  // The first check turns the active provider away, if it is answered.
  lemma FirstCheck(slug: Ref -> Table, w: World, t: nat, ref: Ref, c: Choice)
    requires AtMostOneActive(w.db) && t in w.procs && w.procs[t] == XStart(ref)
    ensures var w' := Step(slug, w, t, c);
            && t in w'.procs && (w'.procs[t] == XIdle(ref) || w'.procs[t] == Done)
            && (w'.procs[t] == XIdle(ref) && IsActive(w.db, ref) ==> c == Mute)
  {
  }

  lemma SecondCheck(slug: Ref -> Table, w: World, t: nat, ref: Ref, c: Choice)
    requires t in w.procs && (w.procs[t] == XIdle(ref) || w.procs[t] == Done)
    ensures var w' := Step(slug, w, t, c);
            t in w'.procs && (w'.procs[t] == XDrop(ref) ==> w.procs[t] == XIdle(ref))
  {
  }

  lemma PassedFirst(slug: Ref -> Table, w: World, t: nat, ref: Ref, c1: Choice, a: seq<(nat, Choice)>,
                    c2: Choice, b: seq<(nat, Choice)>)
    requires AtMostOneActive(w.db) && t in w.procs && w.procs[t] == XStart(ref) && Spares(a, t) && Spares(b, t)
    requires var v := Exec(slug, w, [(t, c1)] + a + [(t, c2)] + b); t in v.procs && v.procs[t] == XDrop(ref)
    ensures Step(slug, w, t, c1).procs[t] == XIdle(ref)
  {
    hide Exec, Step;
    assert [] + [(t, c1)] == [(t, c1)];
    ExecSnoc(slug, w, [], t, c1);
    NoRun(slug, w);
    FirstCheck(slug, w, t, ref, c1);
    var w1 := Step(slug, w, t, c1);
    Waiting(slug, w1, a, t);
    ExecAppend(slug, w, [(t, c1)], a);
    var w2 := Exec(slug, w1, a);
    ExecSnoc(slug, w, [(t, c1)] + a, t, c2);
    SecondCheck(slug, w2, t, ref, c2);
    Waiting(slug, Step(slug, w2, t, c2), b, t);
    ExecAppend(slug, w, [(t, c1)] + a + [(t, c2)], b);
  }

  lemma NoRun(slug: Ref -> Table, w: World)
    ensures Exec(slug, w, []) == w
  {
  }

  lemma DropTakes(slug: Ref -> Table, w: World, t: nat, ref: Ref)
    requires t in w.procs && w.procs[t] == XDrop(ref)
    ensures var w' := Step(slug, w, t, Go); forall r :: IsActive(w'.db, r) <==> IsActive(w.db, r) && r != ref
  {
    if ref in w.db.providers {
      StepIs(slug, w, t, Go, ADrop(ref), Done);
    } else {
      StepIs(slug, w, t, Go, ARead, Done);
    }
    hide Step, Advance;
  }
}
