// What every run of the migration actors keeps, and what it may break.
module MigrationRuns {
  import opened Text
  import opened Migration

  // ---- credits are rows ----

  // The rows a migration's counter should stand for.
  ghost function Credited(landed: seq<Landing>, id: nat, counter: Counter): nat {
    if landed == [] then 0 else
    var l := landed[|landed| - 1];
    Credited(landed[..|landed| - 1], id, counter) + if l.id == id && l.counter == counter then |l.rows| else 0
  }

  lemma CreditedSnoc(landed: seq<Landing>, l: Landing, id: nat, counter: Counter)
    ensures Credited(landed + [l], id, counter) ==
            Credited(landed, id, counter) + if l.id == id && l.counter == counter then |l.rows| else 0
  {
    assert (landed + [l])[..|landed|] == landed;
  }

  // ---- state invariant ----

  // Facts Advance establishes in the very state it acts on.
  ghost predicate Sound(slug: Ref -> Table, db: Db, used: set<Chunk>, a: Action) {
    match a
    case AOpen(m) =>
      ActiveId(db) == None && m.status == InProgress && m.backfill == 0 && m.lazy == 0 && m.toTable == slug(m.to)
    case AIndex(_, born, targets, _) => born * used == {} && targets <= db.tables.Keys
    case AProvision(ref, table) => CanProvision(db, ref, table) && table == slug(ref)
    case ABoot(ref, table) => CanProvision(db, ref, table) && table == slug(ref)
    case AFinish(_, status) => status != InProgress
    case _ => true
  }

  lemma AdvanceIsSound(slug: Ref -> Table, db: Db, used: set<Chunk>, p: Proc, c: Choice)
    ensures Sound(slug, db, used, Advance(slug, db, used, p, c).0)
  {
  }

  // Embedding rows belong to live chunks; chunk ids are never reused.
  ghost predicate RowsLive(w: World) {
    && w.db.chunks <= w.used
    && forall t | t in w.db.tables :: w.db.tables[t] <= w.db.chunks
  }

  // Each provider owns its slug's table, and the table exists.
  ghost predicate RegistrySound(slug: Ref -> Table, w: World) {
    && (forall r | r in w.db.providers :: w.db.providers[r].table == slug(r) && slug(r) in w.db.tables)
    && (forall r, q | r in w.db.providers && q in w.db.providers && slug(r) == slug(q) :: r == q)
    && (forall id | 0 <= id < |w.db.migrations| ::
          var m := w.db.migrations[id]; m.toTable == slug(m.to) && (m.toTable in w.drops || m.to in w.db.providers))
  }

  ghost predicate AtMostOneActive(db: Db) {
    forall r, q | r in db.providers && q in db.providers && db.providers[r].active && db.providers[q].active :: r == q
  }

  ghost predicate AtMostOneRunning(db: Db) {
    forall i: nat, j: nat | Running(db, i) && Running(db, j) :: i == j
  }

  ghost predicate CountersExact(w: World) {
    forall id | 0 <= id < |w.db.migrations| ::
      && w.db.migrations[id].backfill == Credited(w.landed, id, Backfill)
      && w.db.migrations[id].lazy == Credited(w.landed, id, Lazy)
  }

  // A landed row is still in its table unless its chunk is gone.
  ghost predicate LandedStay(w: World) {
    forall i | 0 <= i < |w.landed| ::
      && w.landed[i].id < |w.db.migrations| && w.landed[i].rows <= w.used
      && var table := w.db.migrations[w.landed[i].id].toTable;
         table in w.drops ||
         (table in w.db.tables && w.landed[i].rows * w.db.chunks <= w.db.tables[table])
  }

  // No chunk is credited twice to one migration.
  ghost predicate CreditedOnce(w: World) {
    forall i, j | 0 <= i < j < |w.landed| && w.landed[i].id == w.landed[j].id ::
      w.landed[i].id < |w.db.migrations| &&
      (w.db.migrations[w.landed[i].id].toTable in w.drops || w.landed[i].rows !! w.landed[j].rows)
  }

  ghost predicate Registered(db: Db, table: Table) {
    exists r :: r in db.providers && db.providers[r].table == table
  }

  ghost predicate Reaches(db: Db, r: Ref, c: Chunk) {
    r in db.providers && db.providers[r].table in db.tables && c in db.tables[db.providers[r].table]
  }

  // Every chunk can be found through some registered provider.
  ghost predicate Retrievable(db: Db) {
    forall c | c in db.chunks :: exists r :: Reaches(db, r, c)
  }

  ghost predicate Covered(db: Db, table: Table) {
    table in db.tables && db.chunks <= db.tables[table]
  }

  // What one actor remembers agrees with the rows it read.
  ghost predicate ProcSound(slug: Ref -> Table, w: World, p: Proc) {
    match p
    case WFound(id, to, table) => id < |w.db.migrations| && w.db.migrations[id].to == to
        && w.db.migrations[id].toTable == table
    case WBatch(id, table, batch) => id < |w.db.migrations| && w.db.migrations[id].toTable == table && batch <= w.used
    case WFlip(id, to) =>
      && id < |w.db.migrations| && w.db.migrations[id].to == to
      && (Running(w.db, id) && id !in w.spoiled ==> Covered(w.db, w.db.migrations[id].toTable))
    case LFound(_, id, table) => id < |w.db.migrations| && w.db.migrations[id].toTable == table
    case LBatch(id, table, batch) => id < |w.db.migrations| && w.db.migrations[id].toTable == table && batch <= w.used
    case IActive(table) => w.drops == {} ==> Registered(w.db, table)
    case ITargets(targets, during) =>
      && (during.Some? ==> during.value < |w.db.migrations| && w.db.migrations[during.value].toTable in targets)
      && targets != {}
      && (w.drops == {} ==> forall t | t in targets :: Registered(w.db, t))
    case SProvisioned(_, to, _) => slug(to) in w.drops || to in w.db.providers
    case _ => true
  }

  ghost predicate StateInv(slug: Ref -> Table, w: World) {
    && RowsLive(w) && RegistrySound(slug, w) && AtMostOneActive(w.db) && AtMostOneRunning(w.db)
    && CountersExact(w) && LandedStay(w) && CreditedOnce(w)
    && (w.drops == {} ==> Retrievable(w.db))
  }

  ghost predicate Inv(slug: Ref -> Table, w: World) {
    StateInv(slug, w) && forall t | t in w.procs :: ProcSound(slug, w, w.procs[t])
  }

  predicate Starting(p: Proc) {
    p.WIdle? || p.LStart? || p.IStart? || p.DStart? || p.RStart? || p.SStart? || p.PStart? || p.XStart? || p.BStart?
  }

  // A daemon on a consistent index that has never migrated.
  ghost predicate Initial(slug: Ref -> Table, w: World) {
    && RowsLive(w) && RegistrySound(slug, w) && AtMostOneActive(w.db) && Retrievable(w.db)
    && w.db.migrations == [] && w.landed == [] && w.drops == {} && w.spoiled == {}
    && forall t | t in w.procs :: Starting(w.procs[t])
  }

  // ---- preservation, one invariant at a time ----

  lemma KeepsRows(slug: Ref -> Table, w: World, a: Action)
    requires RowsLive(w) && CanApply(w.db, a)
    ensures RowsLive(Observe(w, a))
  {
  }

  lemma KeepsRegistry(slug: Ref -> Table, w: World, a: Action)
    requires RegistrySound(slug, w) && CanApply(w.db, a) && Sound(slug, w.db, w.used, a)
    requires a.AOpen? ==> a.m.toTable in w.drops || a.m.to in w.db.providers
    ensures RegistrySound(slug, Observe(w, a))
  {
    var w' := Observe(w, a);
    forall id | 0 <= id < |w'.db.migrations|
      ensures var m := w'.db.migrations[id]; m.toTable == slug(m.to) && (m.toTable in w'.drops || m.to in w'.db.providers)
    {
      if id < |w.db.migrations| {
        TerminalStays(w.db, a, id);
      }
    }
  }

  lemma KeepsOneActive(db: Db, a: Action)
    requires AtMostOneActive(db) && CanApply(db, a)
    ensures AtMostOneActive(Apply(db, a))
  {
  }

  lemma KeepsOneRunning(slug: Ref -> Table, w: World, a: Action)
    requires AtMostOneRunning(w.db) && CanApply(w.db, a) && Sound(slug, w.db, w.used, a)
    ensures AtMostOneRunning(Apply(w.db, a))
  {
    var db' := Apply(w.db, a);
    forall i: nat, j: nat | Running(db', i) && Running(db', j) ensures i == j {
      assert i < |w.db.migrations| ==> Running(w.db, i);
      assert j < |w.db.migrations| ==> Running(w.db, j);
    }
  }

  // A finished migration stays finished, and no row is ever rewritten otherwise.
  lemma TerminalStays(db: Db, a: Action, id: nat)
    requires CanApply(db, a) && id < |db.migrations|
    ensures var m, m' := db.migrations[id], Apply(db, a).migrations[id];
            && m'.from == m.from && m'.to == m.to && m'.toTable == m.toTable && m'.total == m.total
            && (m.status != InProgress ==> m'.status == m.status && m'.paused == m.paused)
  {
  }

  lemma KeepsCounters(slug: Ref -> Table, w: World, a: Action)
    requires CountersExact(w) && LandedStay(w) && CanApply(w.db, a) && Sound(slug, w.db, w.used, a)
    ensures CountersExact(Observe(w, a))
  {
    var w' := Observe(w, a);
    if a.ARecord? {
      var l := Landed(w.db, a)[0];
      forall id | 0 <= id < |w'.db.migrations|
        ensures w'.db.migrations[id].backfill == Credited(w'.landed, id, Backfill)
        ensures w'.db.migrations[id].lazy == Credited(w'.landed, id, Lazy)
      {
        CreditedSnoc(w.landed, l, id, Backfill);
        CreditedSnoc(w.landed, l, id, Lazy);
      }
    } else if a.AOpen? {
      CreditedNothing(w.landed, |w.db.migrations|, Backfill);
      CreditedNothing(w.landed, |w.db.migrations|, Lazy);
      assert w'.landed == w.landed;
    } else {
      assert w'.landed == w.landed;
    }
  }

  lemma {:induction false} CreditedNothing(landed: seq<Landing>, id: nat, counter: Counter)
    requires forall i | 0 <= i < |landed| :: landed[i].id != id
    ensures Credited(landed, id, counter) == 0
  {
    if landed != [] {
      CreditedNothing(landed[..|landed| - 1], id, counter);
    }
  }

  lemma KeepsLanded(slug: Ref -> Table, w: World, a: Action)
    requires RowsLive(w) && LandedStay(w) && CanApply(w.db, a) && Sound(slug, w.db, w.used, a)
    requires a.ARecord? ==> w.db.migrations[a.id].toTable == a.table
    ensures LandedStay(Observe(w, a))
  {
    var w' := Observe(w, a);
    forall i | 0 <= i < |w'.landed|
      ensures w'.landed[i].id < |w'.db.migrations| && w'.landed[i].rows <= w'.used
      ensures var table := w'.db.migrations[w'.landed[i].id].toTable;
              table in w'.drops ||
              (table in w'.db.tables && w'.landed[i].rows * w'.db.chunks <= w'.db.tables[table])
    {
      if i < |w.landed| {
        TerminalStays(w.db, a, w.landed[i].id);
        var table := w.db.migrations[w.landed[i].id].toTable;
        if table !in w'.drops {
          forall c | c in w.landed[i].rows && c in w'.db.chunks ensures c in w'.db.tables[table] {
            assert c in w.used;
            assert a.AIndex? ==> c !in a.born * w.used;
            assert c in w.landed[i].rows * w.db.chunks;
          }
        }
      }
    }
  }

  lemma KeepsCreditedOnce(slug: Ref -> Table, w: World, a: Action)
    requires RowsLive(w) && LandedStay(w) && CreditedOnce(w) && CanApply(w.db, a)
    requires a.ARecord? ==> w.db.migrations[a.id].toTable == a.table
    ensures CreditedOnce(Observe(w, a))
  {
    var w' := Observe(w, a);
    forall i, j | 0 <= i < j < |w'.landed| && w'.landed[i].id == w'.landed[j].id
      ensures w'.landed[i].id < |w'.db.migrations|
      ensures w'.db.migrations[w'.landed[i].id].toTable in w'.drops || w'.landed[i].rows !! w'.landed[j].rows
    {
      TerminalStays(w.db, a, w.landed[i].id);
    }
  }

  lemma KeepsRetrievable(slug: Ref -> Table, w: World, a: Action)
    requires Retrievable(w.db) && CanApply(w.db, a) && Sound(slug, w.db, w.used, a)
    requires !a.ADrop?
    requires a.AIndex? ==> a.targets != {} && forall t | t in a.targets :: Registered(w.db, t)
    ensures Retrievable(Apply(w.db, a))
  {
    var db' := Apply(w.db, a);
    forall c | c in db'.chunks ensures exists r :: Reaches(db', r, c) {
      if a.AIndex? && c in a.born {
        var t :| t in a.targets;
        var r :| r in w.db.providers && w.db.providers[r].table == t;
        assert Reaches(db', r, c);
      } else {
        var r :| Reaches(w.db, r, c);
        assert Reaches(db', r, c);
      }
    }
  }

  // What an idle actor remembers survives every step of the others.
  lemma KeepsProc(slug: Ref -> Table, w: World, a: Action, p: Proc)
    requires RowsLive(w) && RegistrySound(slug, w) && ProcSound(slug, w, p)
    requires CanApply(w.db, a) && Sound(slug, w.db, w.used, a)
    requires a.AIndex? && a.during.Some? ==>
               a.during.value < |w.db.migrations| && w.db.migrations[a.during.value].toTable in a.targets
    ensures ProcSound(slug, Observe(w, a), p)
  {
    var w' := Observe(w, a);
    forall id | 0 <= id < |w.db.migrations| {
      TerminalStays(w.db, a, id);
    }
    forall t | Registered(w.db, t) && w'.drops == {} ensures Registered(w'.db, t) {
      var r :| r in w.db.providers && w.db.providers[r].table == t;
      assert w'.db.providers[r].table == t;
    }
    if p.WFlip? {
      KeepsCovered(w, a, p.id);
    }
  }

  // A fully covered running migration stays covered until it is spoiled.
  lemma KeepsCovered(w: World, a: Action, id: nat)
    requires CanApply(w.db, a) && id < |w.db.migrations|
    requires Running(w.db, id) && id !in w.spoiled ==> Covered(w.db, w.db.migrations[id].toTable)
    requires a.AIndex? && a.during == Some(id) ==> w.db.migrations[id].toTable in a.targets
    requires a.AIndex? ==> a.targets <= w.db.tables.Keys
    ensures var w' := Observe(w, a);
            Running(w'.db, id) && id !in w'.spoiled ==> Covered(w'.db, w'.db.migrations[id].toTable)
  {
    TerminalStays(w.db, a, id);
  }

  // ---- every run ----

  // Steps that write act on rows and tables their actor had the right to.
  ghost predicate Entitled(w: World, a: Action) {
    match a
    case ARecord(id, table, _, _) => id < |w.db.migrations| && w.db.migrations[id].toTable == table
    case AOpen(m) => m.toTable in w.drops || m.to in w.db.providers
    case AIndex(_, _, targets, during) =>
      && targets != {} && (w.drops == {} ==> forall t | t in targets :: Registered(w.db, t))
      && (during.Some? ==> during.value < |w.db.migrations| && w.db.migrations[during.value].toTable in targets)
    case _ => true
  }

  lemma AdvanceIsEntitled(slug: Ref -> Table, w: World, p: Proc, c: Choice)
    requires ProcSound(slug, w, p)
    ensures Entitled(w, Advance(slug, w.db, w.used, p, c).0)
  {
    hide ActiveRef, ActiveId, MissingBatch, Missing, CanRecord, CanProvision;
  }

  lemma AdvanceRemembers(slug: Ref -> Table, w: World, p: Proc, c: Choice)
    requires RowsLive(w) && RegistrySound(slug, w) && ProcSound(slug, w, p)
    requires Advance(slug, w.db, w.used, p, c).0 == ARead
    ensures ProcSound(slug, w, Advance(slug, w.db, w.used, p, c).1)
  {
    if p.IStart? || p.IActive? {
      IndexerRemembers(slug, w, p, c);
    } else if p.WIdle? || p.WFound? || p.WBatch? || p.WFlip? || p.WFinish? {
      WorkerRemembers(slug, w, p, c);
    } else {
      hide ActiveRef, ActiveId, MissingBatch, CanRecord, CanProvision, RegistrySound, Registered, Covered;
    }
  }

  lemma IndexerRemembers(slug: Ref -> Table, w: World, p: Proc, c: Choice)
    requires RegistrySound(slug, w) && ProcSound(slug, w, p) && (p.IStart? || p.IActive?)
    ensures ProcSound(slug, w, Advance(slug, w.db, w.used, p, c).1)
  {
    if p.IStart? && ActiveRef(w.db).Some? {
      assert Registered(w.db, w.db.providers[ActiveRef(w.db).value].table);
    } else if p.IActive? && w.drops == {} && ActiveId(w.db).Some? {
      var m := w.db.migrations[ActiveId(w.db).value];
      assert w.db.providers[m.to].table == m.toTable;
      assert Registered(w.db, m.toTable);
    }
    hide ActiveRef, ActiveId;
  }

  lemma WorkerRemembers(slug: Ref -> Table, w: World, p: Proc, c: Choice)
    requires RowsLive(w) && ProcSound(slug, w, p) && (p.WIdle? || p.WFound? || p.WBatch? || p.WFlip? || p.WFinish?)
    requires Advance(slug, w.db, w.used, p, c).0 == ARead
    ensures ProcSound(slug, w, Advance(slug, w.db, w.used, p, c).1)
  {
    if p.WFound? && Missing(w.db, p.table) == {} && p.table in w.db.tables {
      forall x | x in w.db.chunks ensures x in w.db.tables[p.table] {
        assert x !in Missing(w.db, p.table);
      }
    }
    hide ActiveId;
  }

  // After a write an actor has nothing left to remember that could go stale,
  // except a start that has just provisioned its to-table.
  lemma WriterRemembers(slug: Ref -> Table, db: Db, used: set<Chunk>, p: Proc, c: Choice)
    ensures var (a, next) := Advance(slug, db, used, p, c);
            a != ARead ==>
              || next.Done? || next.WIdle? || next.WFinish?
              || (next.SProvisioned? && a == AProvision(next.to, slug(next.to)))
  {
  }

  lemma KeepsState(slug: Ref -> Table, w: World, a: Action)
    requires StateInv(slug, w) && CanApply(w.db, a) && Sound(slug, w.db, w.used, a) && Entitled(w, a)
    ensures StateInv(slug, Observe(w, a))
  {
    KeepsRows(slug, w, a);
    KeepsRegistry(slug, w, a);
    KeepsOneActive(w.db, a);
    KeepsOneRunning(slug, w, a);
    KeepsCounters(slug, w, a);
    KeepsLanded(slug, w, a);
    KeepsCreditedOnce(slug, w, a);
    if Observe(w, a).drops == {} {
      KeepsRetrievable(slug, w, a);
    }
  }

  lemma StepKeepsInv(slug: Ref -> Table, w: World, t: nat, c: Choice)
    requires Inv(slug, w)
    ensures Inv(slug, Step(slug, w, t, c))
  {
    if t in w.procs {
      var (a, next) := Advance(slug, w.db, w.used, w.procs[t], c);
      AdvanceIsEntitled(slug, w, w.procs[t], c);
      AdvanceApplies(slug, w.db, w.used, w.procs[t], c);
      AdvanceIsSound(slug, w.db, w.used, w.procs[t], c);
      KeepsState(slug, w, a);
      forall u | u in w.procs ensures ProcSound(slug, Observe(w, a), w.procs[u]) {
        KeepsProc(slug, w, a, w.procs[u]);
      }
      if a == ARead {
        AdvanceRemembers(slug, w, w.procs[t], c);
        assert Observe(w, a) == w;
      } else {
        WriterRemembers(slug, w.db, w.used, w.procs[t], c);
        assert ProcSound(slug, Observe(w, a), next);
      }
      assert Observe(w, a).procs == w.procs;
      SameProcs(slug, Observe(w, a), t, next);
    }
  }

  lemma SameProcs(slug: Ref -> Table, w: World, t: nat, next: Proc)
    requires Inv(slug, w) && ProcSound(slug, w, next)
    ensures Inv(slug, w.(procs := w.procs[t := next]))
  {
  }

  lemma {:induction false} ExecKeepsInv(slug: Ref -> Table, w: World, schedule: seq<(nat, Choice)>)
    requires Inv(slug, w)
    ensures Inv(slug, Exec(slug, w, schedule))
    decreases |schedule|
  {
    if schedule != [] {
      var n := |schedule| - 1;
      ExecKeepsInv(slug, w, schedule[..n]);
      StepKeepsInv(slug, Exec(slug, w, schedule[..n]), schedule[n].0, schedule[n].1);
    }
  }

  lemma EveryRunKeepsInv(slug: Ref -> Table, w0: World, schedule: seq<(nat, Choice)>)
    requires Initial(slug, w0)
    ensures Inv(slug, Exec(slug, w0, schedule))
  {
    ExecKeepsInv(slug, w0, schedule);
  }
}
