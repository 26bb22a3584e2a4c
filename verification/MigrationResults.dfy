// What the migration promises over whole runs, and where a promise needs its proviso.
module MigrationResults {
  import opened Text
  import opened Migration
  import opened MigrationRuns

  // Every row a migration ever inserted, each landing taken once.
  ghost function AllRows(landed: seq<Landing>, id: nat): set<Chunk> {
    if landed == [] then {} else
    var l := landed[|landed| - 1];
    AllRows(landed[..|landed| - 1], id) + if l.id == id then l.rows else {}
  }

  lemma {:induction false} AllRowsHolds(landed: seq<Landing>, id: nat, c: Chunk)
    ensures c in AllRows(landed, id) <==> exists i :: 0 <= i < |landed| && landed[i].id == id && c in landed[i].rows
  {
    if landed != [] {
      AllRowsHolds(landed[..|landed| - 1], id, c);
      if i :| 0 <= i < |landed| && landed[i].id == id && c in landed[i].rows {
        assert i < |landed| - 1 ==> landed[..|landed| - 1][i] == landed[i];
      }
    }
  }

  lemma NoneTwice(landed: seq<Landing>, id: nat, n: nat)
    requires n < |landed| && landed[n].id == id
    requires forall i | 0 <= i < n && landed[i].id == id :: landed[i].rows !! landed[n].rows
    ensures AllRows(landed[..n], id) !! landed[n].rows
  {
    forall c | c in landed[n].rows ensures c !in AllRows(landed[..n], id) {
      AllRowsHolds(landed[..n], id, c);
    }
  }

  ghost predicate Disjoint(landed: seq<Landing>, id: nat) {
    forall i, j | 0 <= i < j < |landed| && landed[i].id == id && landed[j].id == id :: landed[i].rows !! landed[j].rows
  }

  lemma {:induction false} DisjointLandingsCount(landed: seq<Landing>, id: nat)
    requires Disjoint(landed, id)
    ensures |AllRows(landed, id)| == Credited(landed, id, Backfill) + Credited(landed, id, Lazy)
  {
    if landed != [] {
      var n := |landed| - 1;
      assert Disjoint(landed[..n], id);
      DisjointLandingsCount(landed[..n], id);
      if landed[n].id == id {
        NoneTwice(landed, id, n);
        assert |AllRows(landed[..n], id) + landed[n].rows| == |AllRows(landed[..n], id)| + |landed[n].rows|;
      }
    }
  }

  // Under any interleaving, with any crashes, the two counters are the rows
  // their path inserted; and while the to-table was never dropped, together
  // they count distinct chunks, none credited twice.
  lemma CreditsAreRows(slug: Ref -> Table, w0: World, schedule: seq<(nat, Choice)>, id: nat)
    requires Initial(slug, w0)
    requires id < |Exec(slug, w0, schedule).db.migrations|
    ensures var w := Exec(slug, w0, schedule); var m := w.db.migrations[id];
            && m.backfill == Credited(w.landed, id, Backfill)
            && m.lazy == Credited(w.landed, id, Lazy)
            && (m.toTable !in w.drops ==> m.backfill + m.lazy == |AllRows(w.landed, id)|)
  {
    var w := Exec(slug, w0, schedule);
    EveryRunKeepsInv(slug, w0, schedule);
    if w.db.migrations[id].toTable !in w.drops {
      DisjointLandingsCount(w.landed, id);
    }
  }

  // The credit of every migration into one table.
  function CreditInto(rows: seq<Row>, table: Table): nat {
    if rows == [] then 0 else
    var m := rows[|rows| - 1];
    CreditInto(rows[..|rows| - 1], table) + if m.toTable == table then m.backfill + m.lazy else 0
  }

  lemma {:induction false} CreditAfterUpdate(rows: seq<Row>, id: nat, m: Row, table: Table)
    requires id < |rows| && m.toTable == rows[id].toTable
    ensures CreditInto(rows[id := m], table) ==
            CreditInto(rows, table) +
            if m.toTable == table then m.backfill + m.lazy - rows[id].backfill - rows[id].lazy else 0
  {
    var n := |rows| - 1;
    if id < n {
      assert rows[id := m][..n] == rows[..n][id := m];
      CreditAfterUpdate(rows[..n], id, m, table);
    } else {
      assert rows[id := m][..n] == rows[..n];
    }
  }

  function Conserved(db: Db, table: Table): nat {
    CreditInto(db.migrations, table) + |Missing(db, table)|
  }

  // Nothing writes notes or drops the table.
  predicate Quiet(db: Db, a: Action, table: Table) {
    && !a.AIndex? && !a.ADelete?
    && (a.ADrop? ==> a.ref in db.providers && db.providers[a.ref].table != table)
  }

  lemma RecordConserves(db: Db, id: nat, at: Table, batch: set<Chunk>, counter: Counter, table: Table)
    requires CanRecord(db, id, at, batch) && db.migrations[id].toTable == at
    ensures Conserved(Record(db, id, at, batch, counter), table) == Conserved(db, table)
  {
    var db' := Record(db, id, at, batch, counter);
    CreditAfterUpdate(db.migrations, id, db'.migrations[id], table);
    if at == table {
      var inserted := batch - db.tables[table];
      assert inserted <= Missing(db, table);
      assert Missing(db', table) == Missing(db, table) - inserted;
    }
  }

  lemma QuietActionConserves(slug: Ref -> Table, w: World, a: Action, table: Table)
    requires CanApply(w.db, a) && Sound(slug, w.db, w.used, a) && Entitled(w, a) && Quiet(w.db, a, table)
    ensures Conserved(Apply(w.db, a), table) == Conserved(w.db, table)
  {
    if a.ARecord? {
      RecordConserves(w.db, a.id, a.table, a.batch, a.counter, table);
    } else if a.AFinish? {
      StatusConserves(w.db, a.id, w.db.migrations[a.id].(status := a.status), table);
    } else if a.APause? {
      StatusConserves(w.db, a.id, w.db.migrations[a.id].(paused := a.paused), table);
    } else if a.AOpen? {
      OpenConserves(w.db, a.m, table);
    } else {
      RegistryConserves(w.db, a, table);
    }
  }

  lemma StatusConserves(db: Db, id: nat, m: Row, table: Table)
    requires id < |db.migrations| && m.toTable == db.migrations[id].toTable
    requires m.backfill == db.migrations[id].backfill && m.lazy == db.migrations[id].lazy
    ensures Conserved(db.(migrations := db.migrations[id := m]), table) == Conserved(db, table)
  {
    CreditAfterUpdate(db.migrations, id, m, table);
  }

  lemma OpenConserves(db: Db, m: Row, table: Table)
    requires m.backfill == 0 && m.lazy == 0
    ensures Conserved(Open(db, m), table) == Conserved(db, table)
  {
    assert Open(db, m).migrations[..|db.migrations|] == db.migrations;
  }

  lemma RegistryConserves(db: Db, a: Action, table: Table)
    requires CanApply(db, a) && Quiet(db, a, table) && (a.ARead? || a.AActivate? || a.AProvision? || a.ABoot? || a.ADrop?)
    ensures Conserved(Apply(db, a), table) == Conserved(db, table)
  {
    assert Missing(Apply(db, a), table) == Missing(db, table);
  }

  ghost predicate QuietStep(slug: Ref -> Table, w: World, t: nat, c: Choice, table: Table) {
    t in w.procs ==> Quiet(w.db, Advance(slug, w.db, w.used, w.procs[t], c).0, table)
  }

  ghost predicate QuietRun(slug: Ref -> Table, w: World, schedule: seq<(nat, Choice)>, table: Table)
    decreases |schedule|
  {
    schedule == [] ||
    var n := |schedule| - 1;
    QuietRun(slug, w, schedule[..n], table)
        && QuietStep(slug, Exec(slug, w, schedule[..n]), schedule[n].0, schedule[n].1, table)
  }

  lemma QuietStepConserves(slug: Ref -> Table, w: World, t: nat, c: Choice, table: Table)
    requires Inv(slug, w) && QuietStep(slug, w, t, c, table)
    ensures Conserved(Step(slug, w, t, c).db, table) == Conserved(w.db, table)
  {
    if t in w.procs {
      AdvanceIsEntitled(slug, w, w.procs[t], c);
      AdvanceApplies(slug, w.db, w.used, w.procs[t], c);
      AdvanceIsSound(slug, w.db, w.used, w.procs[t], c);
      QuietActionConserves(slug, w, Advance(slug, w.db, w.used, w.procs[t], c).0, table);
    }
  }

  // With no index writes, backfill + lazy + missing never changes: whatever the
  // actors do, crash or race, a chunk moves from missing to credited once.
  lemma {:induction false} QuietRunConserves(slug: Ref -> Table, w: World, schedule: seq<(nat, Choice)>, table: Table)
    requires Inv(slug, w) && QuietRun(slug, w, schedule, table)
    ensures Conserved(Exec(slug, w, schedule).db, table) == Conserved(w.db, table)
    decreases |schedule|
  {
    if schedule != [] {
      var n := |schedule| - 1;
      QuietRunConserves(slug, w, schedule[..n], table);
      ExecKeepsInv(slug, w, schedule[..n]);
      QuietStepConserves(slug, Exec(slug, w, schedule[..n]), schedule[n].0, schedule[n].1, table);
    }
  }

  // The chunks a step deletes before they were ever embedded in the table.
  ghost function ShedBy(slug: Ref -> Table, w: World, turn: (nat, Choice), table: Table): nat {
    if turn.0 !in w.procs then 0 else
    var a := Advance(slug, w.db, w.used, w.procs[turn.0], turn.1).0;
    if a.ADelete? then |a.gone * Missing(w.db, table)| else 0
  }

  ghost function Shed(slug: Ref -> Table, w: World, schedule: seq<(nat, Choice)>, table: Table): nat
    decreases |schedule|
  {
    if schedule == [] then 0 else
    var n := |schedule| - 1;
    Shed(slug, w, schedule[..n], table) + ShedBy(slug, Exec(slug, w, schedule[..n]), schedule[n], table)
  }

  // No index writes and no drop of the table; deletions may happen.
  ghost predicate UnwrittenStep(slug: Ref -> Table, w: World, turn: (nat, Choice), table: Table) {
    turn.0 in w.procs ==>
      var a := Advance(slug, w.db, w.used, w.procs[turn.0], turn.1).0;
      a.ADelete? || Quiet(w.db, a, table)
  }

  ghost predicate UnwrittenRun(slug: Ref -> Table, w: World, schedule: seq<(nat, Choice)>, table: Table)
    decreases |schedule|
  {
    schedule == [] ||
    var n := |schedule| - 1;
    UnwrittenRun(slug, w, schedule[..n], table) && UnwrittenStep(slug, Exec(slug, w, schedule[..n]), schedule[n], table)
  }

  lemma DeletionSheds(db: Db, gone: set<Chunk>, table: Table)
    ensures Conserved(DeleteChunks(db, gone), table) + |gone * Missing(db, table)| == Conserved(db, table)
  {
    var before, after := Missing(db, table), Missing(DeleteChunks(db, gone), table);
    assert after == before - gone;
    assert before == after + (gone * before);
  }

  lemma UnwrittenStepSheds(slug: Ref -> Table, w: World, turn: (nat, Choice), table: Table)
    requires Inv(slug, w) && UnwrittenStep(slug, w, turn, table)
    ensures Conserved(Step(slug, w, turn.0, turn.1).db, table) + ShedBy(slug, w, turn, table) == Conserved(w.db, table)
  {
    if turn.0 in w.procs {
      var (a, next) := Advance(slug, w.db, w.used, w.procs[turn.0], turn.1);
      if a.ADelete? {
        StepIs(slug, w, turn.0, turn.1, a, next);
        DeletionSheds(w.db, a.gone, table);
        hide Advance, Step, Conserved, Missing, DeleteChunks;
      } else {
        QuietStepConserves(slug, w, turn.0, turn.1, table);
        hide Advance, Step, Conserved;
      }
    }
  }

  // With deletions too, backfill + lazy + missing only loses, one for one, the
  // chunks deleted before they were embedded: it never rises.
  lemma {:induction false} UnwrittenRunSheds(slug: Ref -> Table, w: World, schedule: seq<(nat, Choice)>, table: Table)
    requires Inv(slug, w) && UnwrittenRun(slug, w, schedule, table)
    ensures Conserved(Exec(slug, w, schedule).db, table) + Shed(slug, w, schedule, table) == Conserved(w.db, table)
    decreases |schedule|
  {
    if schedule != [] {
      var n := |schedule| - 1;
      UnwrittenRunSheds(slug, w, schedule[..n], table);
      ExecKeepsInv(slug, w, schedule[..n]);
      UnwrittenStepSheds(slug, Exec(slug, w, schedule[..n]), schedule[n], table);
      hide Step, Inv, Conserved, UnwrittenStep, ShedBy;
    }
  }

  // At the worker's flip of a migration still in progress, every chunk then in
  // the index has a row in the to-table -- provided each write committed during
  // the migration read its targets during it.
  lemma FlipIsCovered(slug: Ref -> Table, w0: World, schedule: seq<(nat, Choice)>, t: nat)
    requires Initial(slug, w0)
    requires var w := Exec(slug, w0, schedule);
             t in w.procs && w.procs[t].WFlip? && Running(w.db, w.procs[t].id) && w.procs[t].id !in w.spoiled
    ensures var w := Exec(slug, w0, schedule); Covered(w.db, w.db.migrations[w.procs[t].id].toTable)
  {
    var w := Exec(slug, w0, schedule);
    EveryRunKeepsInv(slug, w0, schedule);
    assert ProcSound(slug, w, w.procs[t]);
  }

  // What only spoils that proviso: a write with rows, whose targets were read
  // while this migration was not the one in progress, or a drop of the to-table.
  lemma SpoiledOnlyByStaleTargets(slug: Ref -> Table, w: World, t: nat, c: Choice, id: nat)
    requires Inv(slug, w) && t in w.procs && id !in w.spoiled && id in Step(slug, w, t, c).spoiled
    ensures var p := w.procs[t];
            || (p.ITargets? && p.during != Some(id) && Running(w.db, id) && c.Ids? && c.born != {})
            || (p.XDrop? && id < |w.db.migrations| && w.db.migrations[id].toTable == slug(p.ref))
  {
    var (a, next) := Advance(slug, w.db, w.used, w.procs[t], c);
    StepIs(slug, w, t, c, a, next);
    DropsAndWritesComeFrom(slug, w.db, w.used, w.procs[t], c);
    assert id in Spoils(w.db, a);
    hide Advance, Step, Apply, CanApply;
  }

  // Without prunes: one active provider at most, no chunk out of reach.
  lemma NothingIsLost(slug: Ref -> Table, w0: World, schedule: seq<(nat, Choice)>)
    requires Initial(slug, w0)
    ensures var w := Exec(slug, w0, schedule);
            AtMostOneActive(w.db) && AtMostOneRunning(w.db) && (w.drops == {} ==> Retrievable(w.db))
  {
    EveryRunKeepsInv(slug, w0, schedule);
  }

  lemma {:induction false} TerminalForever(slug: Ref -> Table, w: World, schedule: seq<(nat, Choice)>, id: nat)
    requires id < |w.db.migrations| && w.db.migrations[id].status != InProgress
    ensures var w' := Exec(slug, w, schedule);
            id < |w'.db.migrations| && w'.db.migrations[id].status == w.db.migrations[id].status
    decreases |schedule|
  {
    if schedule != [] {
      var n := |schedule| - 1;
      TerminalForever(slug, w, schedule[..n], id);
      var v := Exec(slug, w, schedule[..n]);
      if schedule[n].0 in v.procs {
        AdvanceApplies(slug, v.db, v.used, v.procs[schedule[n].0], schedule[n].1);
        TerminalStays(v.db, Advance(slug, v.db, v.used, v.procs[schedule[n].0], schedule[n].1).0, id);
      }
    }
  }

  // ---- after completion ----

  // The to-provider is active and covers the index, and nobody in flight can
  // still write elsewhere only or drop it.
  ghost predicate Settled(slug: Ref -> Table, w: World, r: Ref) {
    Serves(slug, w.db, r) && forall t | t in w.procs :: Harmless(slug, w.procs[t], r)
  }

  predicate Harmless(slug: Ref -> Table, p: Proc, r: Ref) {
    match p
    case IActive(table) => table == slug(r)
    case ITargets(targets, _) => slug(r) in targets
    case XIdle(ref) => ref != r
    case XDrop(ref) => ref != r
    case _ => true
  }

  // The step activates no provider but r -- no rollback, no other flip, no start
  // with another configured -- and takes no failed lookup for an answer.
  ghost predicate OnlyActivates(slug: Ref -> Table, w: World, t: nat, c: Choice, r: Ref) {
    c != Mute && (t in w.procs ==> var a := Advance(slug, w.db, w.used, w.procs[t], c).0; MakesActive(a) ==> a.ref == r)
  }

  ghost predicate RunOnlyActivates(slug: Ref -> Table, w: World, schedule: seq<(nat, Choice)>, r: Ref)
    decreases |schedule|
  {
    schedule == [] ||
    var n := |schedule| - 1;
    RunOnlyActivates(slug, w, schedule[..n], r)
        && OnlyActivates(slug, Exec(slug, w, schedule[..n]), schedule[n].0, schedule[n].1, r)
  }

  // From then on, until some actor activates another provider, every chunk
  // stays covered by it -- so pruning the from-provider loses nothing.
  lemma StaysSettled(slug: Ref -> Table, w: World, t: nat, c: Choice, r: Ref)
    requires Inv(slug, w) && Settled(slug, w, r) && OnlyActivates(slug, w, t, c, r)
    ensures Settled(slug, Step(slug, w, t, c), r)
  {
    if t in w.procs {
      var (a, next) := Advance(slug, w.db, w.used, w.procs[t], c);
      AdvanceApplies(slug, w.db, w.used, w.procs[t], c);
      SettledDb(slug, w, t, c, r);
      SettledProc(slug, w, t, c, r);
    }
  }

  ghost predicate Serves(slug: Ref -> Table, db: Db, r: Ref) {
    r in db.providers && db.providers[r].active && Covered(db, slug(r))
  }

  lemma ActionKeepsServing(slug: Ref -> Table, db: Db, a: Action, r: Ref)
    requires Serves(slug, db, r) && CanApply(db, a)
    requires MakesActive(a) ==> a.ref == r
    requires a.ADrop? ==> a.ref != r && db.providers[a.ref].table != slug(r)
    requires a.AIndex? ==> slug(r) in a.targets
    ensures Serves(slug, Apply(db, a), r)
  {
  }

  lemma SettledDb(slug: Ref -> Table, w: World, t: nat, c: Choice, r: Ref)
    requires Inv(slug, w) && Settled(slug, w, r) && t in w.procs && OnlyActivates(slug, w, t, c, r)
    ensures Serves(slug, Step(slug, w, t, c).db, r)
  {
    var a := Advance(slug, w.db, w.used, w.procs[t], c).0;
    AdvanceApplies(slug, w.db, w.used, w.procs[t], c);
    DropsAndWritesComeFrom(slug, w.db, w.used, w.procs[t], c);
    ActionKeepsServing(slug, w.db, a, r);
  }

  lemma DropsAndWritesComeFrom(slug: Ref -> Table, db: Db, used: set<Chunk>, p: Proc, c: Choice)
    ensures var a := Advance(slug, db, used, p, c).0;
            && (a.ADrop? ==> p == XDrop(a.ref))
            && (a.AIndex? ==> p == ITargets(a.targets, a.during) && c == Ids(a.gone, a.born))
  {
  }

  lemma SettledProc(slug: Ref -> Table, w: World, t: nat, c: Choice, r: Ref)
    requires Inv(slug, w) && Settled(slug, w, r) && t in w.procs && c != Mute
    ensures Harmless(slug, Advance(slug, w.db, w.used, w.procs[t], c).1, r)
  {
    ServesIsActive(slug, w, r);
    assert Harmless(slug, w.procs[t], r);
    hide Inv, Settled, Serves, Advance;
    HarmlessStays(slug, w.db, w.used, w.procs[t], c, r);
  }

  lemma ServesIsActive(slug: Ref -> Table, w: World, r: Ref)
    requires Inv(slug, w) && Serves(slug, w.db, r)
    ensures ActiveRef(w.db) == Some(r) && w.db.providers[r].table == slug(r)
  {
  }

  lemma HarmlessStays(slug: Ref -> Table, db: Db, used: set<Chunk>, p: Proc, c: Choice, r: Ref)
    requires ActiveRef(db) == Some(r) && db.providers[r].table == slug(r) && c != Mute && Harmless(slug, p, r)
    ensures Harmless(slug, Advance(slug, db, used, p, c).1, r)
  {
    hide ActiveRef, ActiveId, MissingBatch, Missing, CanRecord, CanProvision;
  }

  lemma {:induction false} PruneAfterCompletionLosesNothing(slug: Ref -> Table, w: World, schedule: seq<(nat, Choice)>,
                                                            r: Ref)
    requires Inv(slug, w) && Settled(slug, w, r) && RunOnlyActivates(slug, w, schedule, r)
    ensures var w' := Exec(slug, w, schedule); Settled(slug, w', r) && AtMostOneActive(w'.db) && Retrievable(w'.db)
    decreases |schedule|
  {
    ExecKeepsInv(slug, w, schedule);
    if schedule != [] {
      var n := |schedule| - 1;
      PruneAfterCompletionLosesNothing(slug, w, schedule[..n], r);
      ExecKeepsInv(slug, w, schedule[..n]);
      StaysSettled(slug, Exec(slug, w, schedule[..n]), schedule[n].0, schedule[n].1, r);
    }
    var w' := Exec(slug, w, schedule);
    forall c | c in w'.db.chunks ensures exists q :: Reaches(w'.db, q, c) {
      assert Reaches(w'.db, r, c);
    }
  }

  // ---- from the flip to there ----

  // An unspoiled flip to a registered provider serves every chunk.
  lemma FlipServes(slug: Ref -> Table, w: World, t: nat, id: nat, to: Ref)
    requires Inv(slug, w) && t in w.procs && w.procs[t] == WFlip(id, to)
    requires Running(w.db, id) && id !in w.spoiled && to in w.db.providers
    ensures Step(slug, w, t, Go).db == Activate(w.db, to) && Serves(slug, Activate(w.db, to), to)
    ensures Step(slug, w, t, Go).procs == w.procs[t := WFinish(id)] && w.db.migrations[id].to == to
  {
    assert ProcSound(slug, w, w.procs[t]);
    StepIs(slug, w, t, Go, AActivate(to), WFinish(id));
    assert slug(to) == w.db.migrations[id].toTable;
    hide Step, Advance;
  }

  // Nobody in flight can still write past r's table or drop it, as long as the
  // migration into it is in progress: a writer still to look it up will find it.
  ghost predicate Guarded(slug: Ref -> Table, w: World, r: Ref) {
    forall t | t in w.procs :: GuardedBy(slug, w.procs[t], r)
  }

  predicate GuardedBy(slug: Ref -> Table, p: Proc, r: Ref) {
    match p
    case ITargets(targets, _) => slug(r) in targets
    case XIdle(ref) => ref != r
    case XDrop(ref) => ref != r
    case _ => true
  }

  ghost predicate Settling(slug: Ref -> Table, w: World, id: nat, r: Ref) {
    Running(w.db, id) && w.db.migrations[id].to == r && Serves(slug, w.db, r) && Guarded(slug, w, r)
  }

  // At the flip: every write under way has read its targets during this
  // migration, and no prune of the to-provider is past its first check.
  ghost predicate NothingStale(w: World, id: nat, to: Ref) {
    forall t | t in w.procs ::
      match w.procs[t]
      case ITargets(_, during) => during == Some(id)
      case XIdle(ref) => ref != to
      case XDrop(ref) => ref != to
      case _ => true
  }

  lemma FlipSettles(slug: Ref -> Table, w: World, t: nat, id: nat, to: Ref)
    requires Inv(slug, w) && t in w.procs && w.procs[t] == WFlip(id, to)
    requires Running(w.db, id) && id !in w.spoiled && to in w.db.providers && NothingStale(w, id, to)
    ensures Settling(slug, Step(slug, w, t, Go), id, to)
  {
    FlipServes(slug, w, t, id, to);
    hide Serves, Step;
    forall u | u in w.procs && w.procs[u].ITargets? ensures slug(to) in w.procs[u].targets {
      assert ProcSound(slug, w, w.procs[u]);
    }
  }

  lemma GuardedProc(slug: Ref -> Table, w: World, t: nat, c: Choice, id: nat, r: Ref)
    requires Inv(slug, w) && Settling(slug, w, id, r) && t in w.procs && c != Mute
    ensures GuardedBy(slug, Advance(slug, w.db, w.used, w.procs[t], c).1, r)
  {
    ServesIsActive(slug, w, r);
    assert ActiveId(w.db) == Some(id) && w.db.migrations[id].toTable == slug(r);
    assert GuardedBy(slug, w.procs[t], r);
    hide Inv, Settling, Serves, Advance;
    GuardStays(slug, w.db, w.used, w.procs[t], c, id, r);
  }

  lemma GuardStays(slug: Ref -> Table, db: Db, used: set<Chunk>, p: Proc, c: Choice, id: nat, r: Ref)
    requires ActiveRef(db) == Some(r) && ActiveId(db) == Some(id) && db.migrations[id].toTable == slug(r)
    requires db.migrations[id].to == r && c != Mute && GuardedBy(slug, p, r)
    ensures GuardedBy(slug, Advance(slug, db, used, p, c).1, r)
  {
    hide ActiveRef, ActiveId, MissingBatch, Missing, CanRecord, CanProvision;
  }

  lemma StaysSettling(slug: Ref -> Table, w: World, t: nat, c: Choice, id: nat, r: Ref)
    requires Inv(slug, w) && Settling(slug, w, id, r) && OnlyActivates(slug, w, t, c, r)
    requires Running(Step(slug, w, t, c).db, id)
    ensures Settling(slug, Step(slug, w, t, c), id, r)
  {
    if t in w.procs {
      var (a, next) := Advance(slug, w.db, w.used, w.procs[t], c);
      StepIs(slug, w, t, c, a, next);
      GuardedProc(slug, w, t, c, id, r);
      DropsAndWritesComeFrom(slug, w.db, w.used, w.procs[t], c);
      DropsAnotherTable(slug, w, a, r);
      hide Advance, Step, Inv;
      ActionKeepsServing(slug, w.db, a, r);
      TerminalStays(w.db, a, id);
      hide Apply, Serves;
    }
  }

  lemma DropsAnotherTable(slug: Ref -> Table, w: World, a: Action, r: Ref)
    requires Inv(slug, w) && Serves(slug, w.db, r) && CanApply(w.db, a)
    ensures a.ADrop? && a.ref != r ==> w.db.providers[a.ref].table != slug(r)
  {
  }

  // A row once there stays there, and one in progress was so a step before.
  lemma StepBack(slug: Ref -> Table, w: World, t: nat, c: Choice, id: nat)
    requires id < |w.db.migrations|
    ensures var w' := Step(slug, w, t, c); id < |w'.db.migrations| && (Running(w'.db, id) ==> Running(w.db, id))
  {
    if t in w.procs {
      var (a, next) := Advance(slug, w.db, w.used, w.procs[t], c);
      StepIs(slug, w, t, c, a, next);
      hide Advance, Step;
      TerminalStays(w.db, a, id);
    }
  }

  lemma {:induction false} RowStays(slug: Ref -> Table, w: World, schedule: seq<(nat, Choice)>, id: nat)
    requires id < |w.db.migrations|
    ensures id < |Exec(slug, w, schedule).db.migrations|
    decreases |schedule|
  {
    hide Step;
    if schedule != [] {
      var n := |schedule| - 1;
      RowStays(slug, w, schedule[..n], id);
      StepBack(slug, Exec(slug, w, schedule[..n]), schedule[n].0, schedule[n].1, id);
    }
  }

  lemma {:induction false} RunStaysSettling(slug: Ref -> Table, w: World, schedule: seq<(nat, Choice)>, id: nat, r: Ref)
    requires Inv(slug, w) && Settling(slug, w, id, r) && RunOnlyActivates(slug, w, schedule, r)
    requires Running(Exec(slug, w, schedule).db, id)
    ensures Settling(slug, Exec(slug, w, schedule), id, r)
    decreases |schedule|
  {
    if schedule != [] {
      var n := |schedule| - 1;
      var v := Exec(slug, w, schedule[..n]);
      ExecKeepsInv(slug, w, schedule[..n]);
      RowStays(slug, w, schedule[..n], id);
      StepBack(slug, v, schedule[n].0, schedule[n].1, id);
      hide Step, Inv, Settling, OnlyActivates;
      RunStaysSettling(slug, w, schedule[..n], id, r);
      StaysSettling(slug, v, schedule[n].0, schedule[n].1, id, r);
    }
  }

  // At the finish: no write under way has read another active provider and not
  // yet whether a migration is in progress.
  ghost predicate NoneBehind(slug: Ref -> Table, w: World, r: Ref) {
    forall t | t in w.procs && w.procs[t].IActive? :: w.procs[t].table == slug(r)
  }

  lemma FinishSettles(slug: Ref -> Table, w: World, t: nat, id: nat, r: Ref)
    requires Settling(slug, w, id, r) && t in w.procs && w.procs[t] == WFinish(id) && NoneBehind(slug, w, r)
    ensures var w' := Step(slug, w, t, Go);
            Settled(slug, w', r) && id < |w'.db.migrations| && w'.db.migrations[id].status == Complete
  {
    StepIs(slug, w, t, Go, AFinish(id, Complete), WIdle);
    hide Advance, Step;
  }

  // A migration from start to end, whatever else runs: an unspoiled flip with
  // nothing stale under way, a finish with no write behind it, and no other
  // provider activated. Its row is complete, and through every later prune
  // every chunk stays reachable.
  lemma CompletedMigrationLosesNothing(slug: Ref -> Table, w0: World, before: seq<(nat, Choice)>, between: seq<(nat, Choice)>,
                                       after: seq<(nat, Choice)>, t: nat, id: nat, to: Ref)
    requires Initial(slug, w0)
    requires var w1 := Exec(slug, w0, before);
             && t in w1.procs && w1.procs[t] == WFlip(id, to) && Running(w1.db, id)
             && id !in w1.spoiled && to in w1.db.providers && NothingStale(w1, id, to)
    requires var w2 := Step(slug, Exec(slug, w0, before), t, Go); var w3 := Exec(slug, w2, between);
             && RunOnlyActivates(slug, w2, between, to)
             && t in w3.procs && w3.procs[t] == WFinish(id) && Running(w3.db, id) && NoneBehind(slug, w3, to)
    requires var w4 := Step(slug, Exec(slug, Step(slug, Exec(slug, w0, before), t, Go), between), t, Go);
             RunOnlyActivates(slug, w4, after, to)
    ensures var w4 := Step(slug, Exec(slug, Step(slug, Exec(slug, w0, before), t, Go), between), t, Go);
            var end := Exec(slug, w4, after);
            && id < |end.db.migrations| && end.db.migrations[id].status == Complete
            && Settled(slug, end, to) && AtMostOneActive(end.db) && Retrievable(end.db)
  {
    hide Inv, Step, Exec, Initial, Settled, Settling, NothingStale, NoneBehind, RunOnlyActivates;
    var w1 := Exec(slug, w0, before);
    EveryRunKeepsInv(slug, w0, before);
    FlipSettles(slug, w1, t, id, to);
    StepKeepsInv(slug, w1, t, Go);
    var w2 := Step(slug, w1, t, Go);
    RunStaysSettling(slug, w2, between, id, to);
    ExecKeepsInv(slug, w2, between);
    var w3 := Exec(slug, w2, between);
    FinishSettles(slug, w3, t, id, to);
    StepKeepsInv(slug, w3, t, Go);
    var w4 := Step(slug, w3, t, Go);
    PruneAfterCompletionLosesNothing(slug, w4, after, to);
    TerminalForever(slug, w4, after, id);
  }
}
