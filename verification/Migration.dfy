// The zero-downtime embedding migration: its database rows, the transactions
// on them, and every actor that meets only there -- the back-fill worker, lazy
// batches, dual-embedding index writes, start, pause, rollback, prune, crash.
module Migration {
  import opened Text

  type Ref = string    // "<name>/<model>"
  type Table = string  // one embedding table, named by the provider's slug
  type Chunk = nat     // chunk ids in their `order by`; never reused

  datatype Provider = Provider(table: Table, active: bool)
  datatype Status = InProgress | Complete | RolledBack
  datatype Counter = Backfill | Lazy
  datatype Row = Row(from: Ref, to: Ref, toTable: Table, status: Status, paused: bool,
                     total: nat, backfill: nat, lazy: nat)

  // Migration rows are kept in start order; an index is a migration's id.
  datatype Db = Db(chunks: set<Chunk>, tables: map<Table, set<Chunk>>,
                   providers: map<Ref, Provider>, migrations: seq<Row>)

  const BATCH_SIZE := 32

  // ---- queries ----

  function Running(db: Db, id: nat): bool {
    id < |db.migrations| && db.migrations[id].status == InProgress
  }

  // ActiveMigration: the in-progress row.
  function ActiveId(db: Db): (r: Option<nat>)
    ensures r.Some? ==> Running(db, r.value)
    ensures r.None? ==> forall id: nat :: !Running(db, id)
  {
    ActiveFrom(db, 0)
  }

  function ActiveFrom(db: Db, i: nat): (r: Option<nat>)
    ensures r.Some? ==> i <= r.value && Running(db, r.value)
    ensures r.None? ==> forall id: nat | i <= id :: !Running(db, id)
    decreases |db.migrations| - i
  {
    if i >= |db.migrations| then None
    else if db.migrations[i].status == InProgress then Some(i)
    else ActiveFrom(db, i + 1)
  }

  function Missing(db: Db, table: Table): set<Chunk> {
    db.chunks - (if table in db.tables then db.tables[table] else {})
  }

  function Least(s: set<Chunk>): (m: Chunk)
    requires s != {}
    ensures m in s && forall x | x in s :: m <= x
  {
    LeastExists(s);
    var m :| m in s && forall x | x in s :: m <= x;
    m
  }

  lemma LeastExists(s: set<Chunk>)
    requires s != {}
    ensures exists m :: m in s && forall x | x in s :: m <= x
  {
    var m := FindLeast(s);
  }

  lemma {:induction false} FindLeast(s: set<Chunk>) returns (m: Chunk)
    requires s != {}
    ensures m in s && forall x | x in s :: m <= x
    decreases s
  {
    m :| m in s;
    if s != {m} {
      var rest := s - {m};
      var least := FindLeast(rest);
      assert s == rest + {m};
      m := if least < m then least else m;
    }
  }

  // MissingChunkBatch: the first `limit` missing chunks in id order.
  function FirstOf(s: set<Chunk>, limit: nat): (batch: seq<Chunk>)
    ensures |batch| == if |s| < limit then |s| else limit
    ensures forall c | c in batch :: c in s
    ensures forall i, j | 0 <= i < j < |batch| :: batch[i] < batch[j]
    ensures forall c, d | c in batch && d in s && d !in batch :: c < d
    decreases limit
  {
    if limit == 0 || s == {} then [] else
    var m := Least(s);
    var rest := FirstOf(s - {m}, limit - 1);
    assert forall c | c in [m] + rest :: c == m || c in rest;
    assert m in [m] + rest;
    assert forall j | 0 <= j < |rest| :: rest[j] in s - {m};
    [m] + rest
  }

  function MissingBatch(db: Db, table: Table): seq<Chunk> {
    FirstOf(Missing(db, table), BATCH_SIZE)
  }

  function AsSet(batch: seq<Chunk>): set<Chunk> {
    set c | c in batch
  }

  // ---- transactions ----

  function Bump(m: Row, counter: Counter, n: nat): Row {
    match counter
    case Backfill => m.(backfill := m.backfill + n)
    case Lazy => m.(lazy := m.lazy + n)
  }

  // A batch naming a deleted chunk breaks the foreign key, one for a dropped
  // table has nowhere to go: either way nothing is recorded.
  predicate CanRecord(db: Db, id: nat, table: Table, batch: set<Chunk>) {
    id < |db.migrations| && table in db.tables && batch <= db.chunks
  }

  // RecordMigratedBatch: absent rows and the credit for exactly those, together.
  function Record(db: Db, id: nat, table: Table, batch: set<Chunk>, counter: Counter): Db
    requires CanRecord(db, id, table, batch)
  {
    var inserted := batch - db.tables[table];
    db.(tables := db.tables[table := db.tables[table] + inserted],
        migrations := db.migrations[id := Bump(db.migrations[id], counter, |inserted|)])
  }

  // SetActiveProvider: every row's flag becomes "is this one".
  function Activate(db: Db, ref: Ref): Db {
    db.(providers := map r | r in db.providers :: db.providers[r].(active := r == ref))
  }

  function Finish(db: Db, id: nat, status: Status): Db
    requires Running(db, id)
  {
    db.(migrations := db.migrations[id := db.migrations[id].(status := status)])
  }

  function SetPaused(db: Db, id: nat, paused: bool): Db
    requires Running(db, id)
  {
    db.(migrations := db.migrations[id := db.migrations[id].(paused := paused)])
  }

  // table_name is unique: a slug collision with another provider fails.
  predicate CanProvision(db: Db, ref: Ref, table: Table) {
    forall r | r in db.providers && r != ref :: db.providers[r].table != table
  }

  // EnsureProvider: create table if not exists, register inactive.
  function Provision(db: Db, ref: Ref, table: Table): Db {
    db.(tables := if table in db.tables then db.tables else db.tables[table := {}],
        providers := if ref in db.providers then db.providers
                     else db.providers[ref := Provider(table, false)])
  }

  function Open(db: Db, m: Row): Db {
    db.(migrations := db.migrations + [m])
  }

  // DropProvider.
  function Drop(db: Db, ref: Ref): Db
    requires ref in db.providers
  {
    db.(tables := db.tables - {db.providers[ref].table}, providers := db.providers - {ref})
  }

  // Deleting chunks cascades into every embedding table.
  function DeleteChunks(db: Db, gone: set<Chunk>): Db {
    db.(chunks := db.chunks - gone, tables := map t | t in db.tables :: db.tables[t] - gone)
  }

  // IndexNote: the note's old chunks out, its new ones in, embedded into every target.
  function IndexNote(db: Db, gone: set<Chunk>, born: set<Chunk>, targets: set<Table>): Db {
    var d := DeleteChunks(db, gone);
    d.(chunks := d.chunks + born,
       tables := map t | t in d.tables :: if t in targets then d.tables[t] + born else d.tables[t])
  }

  // The registered provider that is active.
  ghost function ActiveRef(db: Db): (r: Option<Ref>)
    ensures r.Some? ==> r.value in db.providers && db.providers[r.value].active
    ensures r.None? ==> forall p | p in db.providers :: !db.providers[p].active
  {
    if exists p :: p in db.providers && db.providers[p].active then
      var p :| p in db.providers && db.providers[p].active;
      Some(p)
    else None
  }

  // ---- actors ----

  datatype Proc =
    // back-fill worker
    | WIdle
    | WFound(id: nat, to: Ref, table: Table)
    | WBatch(id: nat, table: Table, batch: set<Chunk>)
    | WFlip(id: nat, to: Ref)
    | WFinish(id: nat)
    // one lazy batch
    | LStart(ids: set<Chunk>)
    | LFound(ids: set<Chunk>, id: nat, table: Table)
    | LBatch(id: nat, table: Table, batch: set<Chunk>)
    // one index write: EmbedTargets reads the active provider, then the migration
    | IStart
    | IActive(table: Table)
    | ITargets(targets: set<Table>, during: Option<nat>)
    // one deletion
    | DStart
    // rollback
    | RStart
    | RFinish(id: nat)
    | RLatest
    | RActivate(ref: Ref)
    // start
    | SStart(from: Ref, to: Ref)
    | SChecked(from: Ref, to: Ref)
    | SReady(from: Ref, to: Ref, total: nat)
    | SProvisioned(from: Ref, to: Ref, total: nat)
    // pause and resume
    | PStart(paused: bool)
    | PFound(id: nat, paused: bool)
    // prune
    | XStart(ref: Ref)
    | XIdle(ref: Ref)
    | XDrop(ref: Ref)
    // a daemon's start with its configured provider
    | BStart(ref: Ref)
    | Done

  // Fail: an embed error, a cancelled context or a crash before the next step.
  // Mute: a lookup whose error the caller takes for "there is none".
  datatype Choice = Go | Fail | Mute | Ids(gone: set<Chunk>, born: set<Chunk>)

  // What a step does to the database.
  datatype Action =
    | ARead
    | ARecord(id: nat, table: Table, batch: set<Chunk>, counter: Counter)
    | AActivate(ref: Ref)
    | AFinish(id: nat, status: Status)
    | APause(id: nat, paused: bool)
    | AProvision(ref: Ref, table: Table)
    | ABoot(ref: Ref, table: Table)
    | AOpen(m: Row)
    | ADrop(ref: Ref)
    | ADelete(gone: set<Chunk>)
    | AIndex(gone: set<Chunk>, born: set<Chunk>, targets: set<Table>, during: Option<nat>)

  predicate MakesActive(a: Action) { a.AActivate? || a.ABoot? }

  // A restarted daemon's worker starts over; any other actor is gone.
  function Crashed(p: Proc): Proc {
    if p.WIdle? || p.WFound? || p.WBatch? || p.WFlip? || p.WFinish? then WIdle else Done
  }

  // The next step of an actor. `used` holds every chunk id ever handed out.
  ghost function Advance(slug: Ref -> Table, db: Db, used: set<Chunk>, p: Proc, c: Choice): (Action, Proc) {
    if c == Fail then (ARead, Crashed(p)) else
    match p
    case WIdle =>
      var a := ActiveId(db);
      if a.None? || db.migrations[a.value].paused then (ARead, WIdle)
      else (ARead, WFound(a.value, db.migrations[a.value].to, db.migrations[a.value].toTable))
    case WFound(id, to, table) =>
      if table !in db.tables then (ARead, WIdle)
      else if Missing(db, table) == {} then (ARead, WFlip(id, to))
      else (ARead, WBatch(id, table, AsSet(MissingBatch(db, table))))
    case WBatch(id, table, batch) =>
      if CanRecord(db, id, table, batch) then (ARecord(id, table, batch, Backfill), WIdle) else (ARead, WIdle)
    case WFlip(id, to) => if db.providers == map[] then (ARead, WIdle) else (AActivate(to), WFinish(id))
    case WFinish(id) => if Running(db, id) then (AFinish(id, Complete), WIdle) else (ARead, WIdle)
    case LStart(ids) =>
      var a := ActiveId(db);
      if a.None? then (ARead, Done) else (ARead, LFound(ids, a.value, db.migrations[a.value].toTable))
    case LFound(ids, id, table) =>
      if table !in db.tables || ids * Missing(db, table) == {} then (ARead, Done)
      else (ARead, LBatch(id, table, ids * Missing(db, table)))
    case LBatch(id, table, batch) =>
      if CanRecord(db, id, table, batch) then (ARecord(id, table, batch, Lazy), Done) else (ARead, Done)
    case IStart =>
      var a := ActiveRef(db);
      if a.None? then (ARead, Done) else (ARead, IActive(db.providers[a.value].table))
    case IActive(table) =>
      (match if c == Mute then None else ActiveId(db)
       case None => (ARead, ITargets({table}, None))
       case Some(id) => (ARead, ITargets({table, db.migrations[id].toTable}, Some(id))))
    case ITargets(targets, during) =>
      if c.Ids? && c.born * used == {} && targets <= db.tables.Keys
      then (AIndex(c.gone, c.born, targets, during), Done) else (ARead, Done)
    case DStart => if c.Ids? then (ADelete(c.gone), Done) else (ARead, Done)
    case RStart =>
      var a := ActiveId(db);
      (ARead, if a.Some? && c != Mute then RFinish(a.value) else RLatest)
    case RFinish(id) => if Running(db, id) then (AFinish(id, RolledBack), Done) else (ARead, Done)
    case RLatest =>
      var n := |db.migrations|;
      if n == 0 || db.migrations[n - 1].status != Complete then (ARead, Done)
      else (ARead, RActivate(db.migrations[n - 1].from))
    case RActivate(ref) => if db.providers == map[] then (ARead, Done) else (AActivate(ref), Done)
    case SStart(from, to) => (ARead, if from == to || (ActiveId(db).Some? && c != Mute) then Done else SChecked(from, to))
    case SChecked(from, to) =>
      (ARead, if from in db.providers then SReady(from, to, |db.chunks|) else Done)
    case SReady(from, to, total) =>
      if CanProvision(db, to, slug(to)) then (AProvision(to, slug(to)), SProvisioned(from, to, total)) else (ARead, Done)
    case SProvisioned(from, to, total) =>
      if ActiveId(db).Some? then (ARead, Done)
      else (AOpen(Row(from, to, slug(to), InProgress, false, total, 0, 0)), Done)
    case PStart(paused) =>
      var a := ActiveId(db);
      (ARead, if a.Some? then PFound(a.value, paused) else Done)
    case PFound(id, paused) => if Running(db, id) then (APause(id, paused), Done) else (ARead, Done)
    case XStart(ref) => (ARead, if ActiveRef(db) == Some(ref) && c != Mute then Done else XIdle(ref))
    case XIdle(ref) =>
      var a := ActiveId(db);
      (ARead, if a.Some? && c != Mute
          && ref in {db.migrations[a.value].from, db.migrations[a.value].to} then Done else XDrop(ref))
    case XDrop(ref) => if ref in db.providers then (ADrop(ref), Done) else (ARead, Done)
    case BStart(ref) => if CanProvision(db, ref, slug(ref)) then (ABoot(ref, slug(ref)), Done) else (ARead, Done)
    case Done => (ARead, Done)
  }

  predicate CanApply(db: Db, a: Action) {
    match a
    case ARecord(id, table, batch, _) => CanRecord(db, id, table, batch)
    case AFinish(id, _) => Running(db, id)
    case APause(id, _) => Running(db, id)
    case ADrop(ref) => ref in db.providers
    case _ => true
  }

  function Apply(db: Db, a: Action): Db
    requires CanApply(db, a)
  {
    match a
    case ARead => db
    case ARecord(id, table, batch, counter) => Record(db, id, table, batch, counter)
    case AActivate(ref) => Activate(db, ref)
    case AFinish(id, status) => Finish(db, id, status)
    case APause(id, paused) => SetPaused(db, id, paused)
    case AProvision(ref, table) => Provision(db, ref, table)
    case ABoot(ref, table) => Activate(Provision(db, ref, table), ref)
    case AOpen(m) => Open(db, m)
    case ADrop(ref) => Drop(db, ref)
    case ADelete(gone) => DeleteChunks(db, gone)
    case AIndex(gone, born, targets, _) => IndexNote(db, gone, born, targets)
  }

  lemma AdvanceApplies(slug: Ref -> Table, db: Db, used: set<Chunk>, p: Proc, c: Choice)
    ensures CanApply(db, Advance(slug, db, used, p, c).0)
  {
  }

  // One transaction's worth of rows that a migration path inserted.
  datatype Landing = Landing(id: nat, counter: Counter, rows: set<Chunk>)

  // The database, the actors, and what an observer of the whole run remembers:
  // every id handed out, every landing, the tables ever dropped, and the
  // migrations during which some write committed without having read its
  // targets during them (or whose to-table was dropped).
  datatype World = World(db: Db, procs: map<nat, Proc>, used: set<Chunk>, landed: seq<Landing>,
                         drops: set<Table>, spoiled: set<nat>)

  function Landed(db: Db, a: Action): seq<Landing> {
    if a.ARecord? && a.table in db.tables then [Landing(a.id, a.counter, a.batch - db.tables[a.table])] else []
  }

  function Spoils(db: Db, a: Action): set<nat> {
    match a
    case AIndex(_, born, _, during) =>
      set id | 0 <= id < |db.migrations| && Running(db, id) && during != Some(id) && born != {}
    case ADrop(ref) =>
      set id | 0 <= id < |db.migrations| && ref in db.providers && db.migrations[id].toTable == db.providers[ref].table
    case _ => {}
  }

  function Observe(w: World, a: Action): World
    requires CanApply(w.db, a)
  {
    w.(db := Apply(w.db, a),
       used := if a.AIndex? then w.used + a.born else w.used,
       landed := w.landed + Landed(w.db, a),
       drops := if a.ADrop? then w.drops + {w.db.providers[a.ref].table} else w.drops,
       spoiled := w.spoiled + Spoils(w.db, a))
  }

  ghost function Step(slug: Ref -> Table, w: World, t: nat, c: Choice): World {
    if t !in w.procs then w else
    var (a, next) := Advance(slug, w.db, w.used, w.procs[t], c);
    AdvanceApplies(slug, w.db, w.used, w.procs[t], c);
    Observe(w, a).(procs := w.procs[t := next])
  }

  lemma StepIs(slug: Ref -> Table, w: World, t: nat, c: Choice, a: Action, next: Proc)
    requires t in w.procs && Advance(slug, w.db, w.used, w.procs[t], c) == (a, next)
    ensures CanApply(w.db, a)
    ensures Step(slug, w, t, c) == Observe(w, a).(procs := w.procs[t := next])
  {
    AdvanceApplies(slug, w.db, w.used, w.procs[t], c);
  }

  ghost function Exec(slug: Ref -> Table, w: World, schedule: seq<(nat, Choice)>): World
    decreases |schedule|
  {
    if schedule == [] then w else
    var (t, c) := schedule[|schedule| - 1];
    Step(slug, Exec(slug, w, schedule[..|schedule| - 1]), t, c)
  }

  lemma ExecSnoc(slug: Ref -> Table, w: World, schedule: seq<(nat, Choice)>, t: nat, c: Choice)
    ensures Exec(slug, w, schedule + [(t, c)]) == Step(slug, Exec(slug, w, schedule), t, c)
  {
    assert (schedule + [(t, c)])[..|schedule|] == schedule;
  }

  lemma {:induction false} ExecAppend(slug: Ref -> Table, w: World, a: seq<(nat, Choice)>, b: seq<(nat, Choice)>)
    ensures Exec(slug, w, a + b) == Exec(slug, Exec(slug, w, a), b)
    decreases |b|
  {
    if b == [] {
      assert a + b == a;
    } else {
      var n := |b| - 1;
      ExecAppend(slug, w, a, b[..n]);
      assert a + b == a + b[..n] + [b[n]];
      ExecSnoc(slug, w, a + b[..n], b[n].0, b[n].1);
      hide Step;
    }
  }

  // n steps of one actor in a row.
  function Turns(t: nat, n: nat): seq<(nat, Choice)> {
    if n == 0 then [] else Turns(t, n - 1) + [(t, Go)]
  }

  lemma ExecTurns(slug: Ref -> Table, w: World, t: nat, n: nat)
    ensures Exec(slug, w, Turns(t, n)) == if n == 0 then w else Step(slug, Exec(slug, w, Turns(t, n - 1)), t, Go)
  {
    if n > 0 {
      ExecSnoc(slug, w, Turns(t, n - 1), t, Go);
    }
  }
}
