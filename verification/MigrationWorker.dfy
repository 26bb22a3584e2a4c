// The store's transactions and the worker's step as they are written, one after
// the other, and how soon an undisturbed migration finishes.
module MigrationWorker {
  import opened Text
  import opened Migration

  datatype Outcome = Idle | Progressed | Failed

  // The call of a step that errors, if any: the database then stays as that
  // call found it. Building the provider counts as embedding.
  datatype Fault = NoFault | AtActive | AtBatch | AtFlip | AtFinish | AtEmbed | AtRecord

  // Worker.step with nobody in between.
  function WorkerStep(db: Db, fault: Fault): (Db, Outcome) {
    if fault == AtActive then (db, Failed) else
    match ActiveId(db)
    case None => (db, Idle)
    case Some(id) =>
      var m := db.migrations[id];
      if m.paused then (db, Idle)
      else if fault == AtBatch || m.toTable !in db.tables then (db, Failed)
      else if Missing(db, m.toTable) == {} then
        if fault == AtFlip || db.providers == map[] then (db, Failed)
        else if fault == AtFinish then (Activate(db, m.to), Failed)
        else (Finish(Activate(db, m.to), id, Complete), Progressed)
      else if fault == AtEmbed || fault == AtRecord then (db, Failed)
      else
        var batch := AsSet(MissingBatch(db, m.toTable));
        BatchIsMissing(db, m.toTable);
        (Record(db, id, m.toTable, batch, Backfill), Progressed)
  }

  lemma BatchIsMissing(db: Db, table: Table)
    ensures AsSet(MissingBatch(db, table)) <= Missing(db, table)
    ensures |AsSet(MissingBatch(db, table))| == |MissingBatch(db, table)|
  {
    DistinctSize(MissingBatch(db, table));
  }

  lemma {:induction false} DistinctSize(s: seq<Chunk>)
    requires forall i, j | 0 <= i < j < |s| :: s[i] < s[j]
    ensures |AsSet(s)| == |s|
  {
    if s != [] {
      var n := |s| - 1;
      DistinctSize(s[..n]);
      assert AsSet(s) == AsSet(s[..n]) + {s[n]};
      assert s[n] !in AsSet(s[..n]);
    }
  }

  lemma OneMore(rows: set<Chunk>, vecs: set<Chunk>, todo: set<Chunk>, c: Chunk)
    requires c in todo && todo <= vecs
    ensures vecs - (todo - {c}) == vecs - todo + {c}
    ensures rows + (vecs - (todo - {c})) == rows + (vecs - todo) + {c}
    ensures c in rows + (vecs - todo) ==> rows + (vecs - todo) + {c} == rows + (vecs - todo)
    ensures |vecs - (todo - {c}) - rows| == |vecs - todo - rows| + if c in rows then 0 else 1
  {
    assert vecs - (todo - {c}) == vecs - todo + {c};
    if c in rows {
      assert vecs - (todo - {c}) - rows == vecs - todo - rows;
    } else {
      assert vecs - (todo - {c}) - rows == (vecs - todo - rows) + {c};
    }
  }

  // insertEmbeddingsIfAbsentTx: the vectors in any order, one insert each,
  // counting the rows that land; a vector for a deleted chunk fails them all.
  method InsertIfAbsent(live: set<Chunk>, rows: set<Chunk>, vecs: set<Chunk>) returns (r: Option<(set<Chunk>, nat)>)
    ensures r.Some? <==> vecs <= live
    ensures r.Some? ==> r.value.0 == rows + (vecs - rows) && r.value.1 == |vecs - rows|
  {
    var now, inserted, todo := rows, 0, vecs;
    while todo != {}
      invariant todo <= vecs && vecs - todo <= live
      invariant now == rows + (vecs - todo)
      invariant inserted == |vecs - todo - rows|
      decreases todo
    {
      var c :| c in todo;
      if c !in live {
        return None;
      }
      OneMore(rows, vecs, todo, c);
      if c !in now {
        now, inserted := now + {c}, inserted + 1;
      }
      todo := todo - {c};
    }
    assert vecs - todo == vecs;
    r := Some((now, inserted));
  }

  class Store {
    var db: Db

    constructor (initial: Db)
      ensures db == initial
    {
      db := initial;
    }

    method ActiveMigration() returns (r: Option<nat>)
      ensures r == ActiveId(db)
    {
      var i := 0;
      while i < |db.migrations|
        invariant 0 <= i <= |db.migrations|
        invariant ActiveId(db) == ActiveFrom(db, i)
      {
        if db.migrations[i].status == InProgress {
          return Some(i);
        }
        i := i + 1;
      }
      r := None;
    }

    // The lowest missing ids, ascending: nothing missing is passed over for a
    // higher id, and nothing is left out while there is room.
    method MissingChunkBatch(table: Table) returns (r: Option<seq<Chunk>>)
      ensures r.Some? <==> table in db.tables
      ensures r.Some? ==> IsFirst(db.chunks - db.tables[table], BATCH_SIZE, r.value)
    {
      if table in db.tables {
        FirstOfIsFirst(Missing(db, table), BATCH_SIZE);
        r := Some(MissingBatch(db, table));
      } else {
        r := None;
      }
    }

    // The rows and the credit for exactly what landed, committed together.
    method RecordMigratedBatch(table: Table, vecs: set<Chunk>, id: nat, counter: Counter) returns (r: Option<nat>)
      requires id < |db.migrations|
      modifies this
      ensures r.Some? <==> CanRecord(old(db), id, table, vecs)
      ensures r.Some? ==> db == Record(old(db), id, table, vecs, counter) && r.value == |vecs - old(db.tables[table])|
      ensures r.None? ==> db == old(db)
    {
      if table !in db.tables {
        return None;
      }
      var landed := InsertIfAbsent(db.chunks, db.tables[table], vecs);
      if landed.None? {
        return None; // rolled back
      }
      var (rows, inserted) := landed.value;
      var next := db.(tables := db.tables[table := rows]);
      if inserted > 0 {
        next := next.(migrations := next.migrations[id := Bump(next.migrations[id], counter, inserted)]);
      }
      db := next;
      r := Some(inserted);
    }

    // Every provider's flag, and nothing else, is set by whether it is the one
    // named; a name that is not registered clears them all.
    method SetActiveProvider(ref: Ref) returns (ok: bool)
      modifies this
      ensures ok <==> old(db).providers != map[]
      ensures !ok ==> db == old(db)
      ensures db.chunks == old(db).chunks && db.tables == old(db).tables && db.migrations == old(db).migrations
      ensures db.providers.Keys == old(db).providers.Keys
      ensures forall r | r in db.providers :: db.providers[r] == Provider(old(db).providers[r].table, r == ref)
    {
      ok := db.providers != map[];
      if ok {
        db := Activate(db, ref);
      }
    }

    // One row's status, and nothing else, if that row is still in progress.
    method FinishMigration(id: nat, status: Status) returns (ok: bool)
      modifies this
      ensures ok <==> id < |old(db).migrations| && old(db).migrations[id].status == InProgress
      ensures !ok ==> db == old(db)
      ensures db.chunks == old(db).chunks && db.tables == old(db).tables && db.providers == old(db).providers
      ensures |db.migrations| == |old(db).migrations|
      ensures forall i | 0 <= i < |db.migrations| && i != id :: db.migrations[i] == old(db).migrations[i]
      ensures ok ==> db.migrations[id] == old(db).migrations[id].(status := status)
    {
      ok := Running(db, id);
      if ok {
        db := Finish(db, id, status);
      }
    }
  }

  class Worker {
    const store: Store

    constructor (store: Store)
      ensures this.store == store
    {
      this.store := store;
    }

    // Whichever call fails.
    method Step(fault: Fault) returns (outcome: Outcome)
      modifies store
      ensures (store.db, outcome) == WorkerStep(old(store.db), fault)
    {
      if fault == AtActive {
        return Failed;
      }
      var active := store.ActiveMigration();
      if active.None? {
        return Idle;
      }
      var id := active.value;
      var m := store.db.migrations[id];
      if m.paused {
        return Idle;
      }
      if fault == AtBatch {
        return Failed;
      }
      var batch := store.MissingChunkBatch(m.toTable);
      if batch.None? {
        return Failed;
      }
      FirstIsUnique(Missing(store.db, m.toTable), BATCH_SIZE, batch.value);
      EmptyBatchIff(store.db, m.toTable);
      if batch.value == [] {
        outcome := Complete(id, m, fault);
        return;
      }
      if fault == AtEmbed || fault == AtRecord {
        return Failed;
      }
      BatchIsMissing(store.db, m.toTable);
      var recorded := store.RecordMigratedBatch(m.toTable, AsSet(batch.value), id, Backfill);
      return Progressed;
    }

    // Full coverage: flip the active provider, then finish the row.
    method Complete(id: nat, m: Row, fault: Fault) returns (outcome: Outcome)
      requires Running(store.db, id)
      modifies store
      ensures var before := old(store.db);
              (store.db, outcome) ==
              if fault == AtFlip || before.providers == map[] then (before, Failed)
              else if fault == AtFinish then (Activate(before, m.to), Failed)
              else (Finish(Activate(before, m.to), id, Status.Complete), Progressed)
    {
      if fault == AtFlip {
        return Failed;
      }
      ghost var before := store.db;
      var flipped := store.SetActiveProvider(m.to);
      if !flipped {
        return Failed;
      }
      FlagsAreActivate(before, store.db, m.to);
      if fault == AtFinish {
        return Failed;
      }
      ghost var flip := store.db;
      var finished := store.FinishMigration(id, Status.Complete);
      assert store.db.migrations == Finish(flip, id, Status.Complete).migrations;
      return Progressed;
    }
  }

  lemma FlagsAreActivate(db: Db, db': Db, ref: Ref)
    requires db'.chunks == db.chunks && db'.tables == db.tables && db'.migrations == db.migrations
    requires db'.providers.Keys == db.providers.Keys
    requires forall r | r in db'.providers :: db'.providers[r] == Provider(db.providers[r].table, r == ref)
    ensures db' == Activate(db, ref)
  {
    assert db'.providers == Activate(db, ref).providers;
  }

  // The first `limit` of a set in ascending order.
  ghost predicate IsFirst(s: set<Chunk>, limit: nat, batch: seq<Chunk>) {
    && (forall i, j | 0 <= i < j < |batch| :: batch[i] < batch[j])
    && (forall c | c in batch :: c in s)
    && |batch| <= limit
    && (forall d | d in s && d !in batch :: |batch| == limit && forall c | c in batch :: c < d)
  }

  lemma FirstOfIsFirst(s: set<Chunk>, limit: nat)
    ensures IsFirst(s, limit, FirstOf(s, limit))
  {
    var batch := FirstOf(s, limit);
    if |batch| < limit {
      DistinctSize(batch);
      SubsetIsAll(AsSet(batch), s);
    }
  }

  lemma SubsetIsAll(a: set<Chunk>, b: set<Chunk>)
    requires a <= b && |a| == |b|
    ensures a == b
  {
    assert |b - a| == 0;
  }

  lemma FirstOfUnfolds(s: set<Chunk>, limit: nat)
    ensures limit == 0 || s == {} ==> FirstOf(s, limit) == []
    ensures limit > 0 && s != {} ==> FirstOf(s, limit) == [Least(s)] + FirstOf(s - {Least(s)}, limit - 1)
  {
  }

  lemma NothingIsFirst(s: set<Chunk>, limit: nat, batch: seq<Chunk>)
    requires IsFirst(s, limit, batch)
    ensures limit == 0 || s == {} ==> batch == []
  {
    if batch != [] {
      assert batch[0] in batch && batch[0] in s;
    }
  }

  lemma {:induction false} FirstIsUnique(s: set<Chunk>, limit: nat, batch: seq<Chunk>)
    requires IsFirst(s, limit, batch)
    ensures batch == FirstOf(s, limit)
    decreases limit
  {
    hide IsFirst, FirstOf, Least;
    FirstOfUnfolds(s, limit);
    NothingIsFirst(s, limit, batch);
    if limit > 0 && s != {} {
      var m := Least(s);
      LeastIsFirst(s, limit, batch);
      RestIsFirst(s, limit, batch);
      FirstIsUnique(s - {m}, limit - 1, batch[1..]);
      assert batch == [m] + batch[1..];
    }
  }

  lemma LeastIsFirst(s: set<Chunk>, limit: nat, batch: seq<Chunk>)
    requires IsFirst(s, limit, batch) && limit > 0 && s != {}
    ensures batch != [] && batch[0] == Least(s)
  {
    var m := Least(s);
    assert m in s && batch != [];
    assert batch[0] in batch && batch[0] in s && m <= batch[0];
  }

  lemma RestIsFirst(s: set<Chunk>, limit: nat, batch: seq<Chunk>)
    requires IsFirst(s, limit, batch) && limit > 0 && batch != []
    ensures IsFirst(s - {batch[0]}, limit - 1, batch[1..])
  {
    var rest := batch[1..];
    assert batch == [batch[0]] + rest;
    forall i | 0 <= i < |rest| ensures rest[i] in s - {batch[0]} {
      assert rest[i] == batch[i + 1] && batch[i + 1] in batch;
    }
    forall d | d in s - {batch[0]} && d !in rest ensures |rest| == limit - 1 && forall c | c in rest :: c < d {
      assert d !in batch;
      assert forall c | c in rest :: c in batch;
    }
  }

  lemma EmptyBatchIff(db: Db, table: Table)
    ensures MissingBatch(db, table) == [] <==> Missing(db, table) == {}
  {
  }

  // ---- how soon it finishes ----

  // A migration the worker can act on.
  ghost predicate Ready(db: Db, id: nat) {
    && ActiveId(db) == Some(id) && !db.migrations[id].paused
    && db.migrations[id].toTable in db.tables && db.providers != map[]
  }

  function Left(db: Db, id: nat): nat
    requires id < |db.migrations|
  {
    |Missing(db, db.migrations[id].toTable)|
  }

  // Steps one after the other, each with what goes wrong in it.
  function Drain(db: Db, faults: seq<Fault>): Db {
    if faults == [] then db else WorkerStep(Drain(db, faults[..|faults| - 1]), faults[|faults| - 1]).0
  }

  // How many of them progressed.
  function Progress(db: Db, faults: seq<Fault>): nat {
    if faults == [] then 0 else
    Progress(db, faults[..|faults| - 1])
    + if WorkerStep(Drain(db, faults[..|faults| - 1]), faults[|faults| - 1]).1 == Progressed then 1 else 0
  }

  // The calls a step makes when the to-table is covered, and when it is not.
  predicate Strikes(fault: Fault, covered: bool) {
    fault in if covered then {AtActive, AtBatch, AtFlip, AtFinish} else {AtActive, AtBatch, AtEmbed, AtRecord}
  }

  // The step of a migration the worker can act on.
  lemma ReadyStep(db: Db, id: nat, fault: Fault)
    requires Ready(db, id)
    ensures var m := db.migrations[id];
            WorkerStep(db, fault) ==
            if Strikes(fault, Missing(db, m.toTable) == {}) then
              (if Missing(db, m.toTable) == {} && fault == AtFinish then Activate(db, m.to) else db, Failed)
            else if Missing(db, m.toTable) == {} then (Finish(Activate(db, m.to), id, Complete), Progressed)
            else (Record(db, id, m.toTable, AsSet(MissingBatch(db, m.toTable)), Backfill), Progressed)
  {
    hide Activate, Finish, Record, MissingBatch, FirstOf, Missing;
  }

  lemma ReadyAfterFlip(db: Db, id: nat)
    requires Ready(db, id)
    ensures Ready(Activate(db, db.migrations[id].to), id)
  {
    var ref := db.migrations[id].to;
    SameActive(db, Activate(db, ref), id);
    SomeProvider(db.providers);
    var r :| r in db.providers;
    assert r in Activate(db, ref).providers;
  }

  lemma SomeProvider(providers: map<Ref, Provider>)
    ensures providers != map[] ==> exists r :: r in providers
  {
    if forall r :: r !in providers {
      assert providers == map[];
    }
  }

  // A step fails exactly when a call it makes fails, and what it leaves can be
  // taken up again: nothing has changed, or the flip alone is done.
  lemma FaultsOnlyDelay(db: Db, id: nat, fault: Fault)
    requires Ready(db, id)
    ensures var (db', outcome) := WorkerStep(db, fault);
            && (outcome == Failed <==> Strikes(fault, Left(db, id) == 0))
            && (outcome != Failed ==> outcome == Progressed)
            && (outcome == Failed ==>
                  && Ready(db', id)
                  && db' == if Left(db, id) == 0 && fault == AtFinish then Activate(db, db.migrations[id].to) else db)
  {
    EmptyIff(Missing(db, db.migrations[id].toTable));
    ReadyStep(db, id, fault);
    ReadyAfterFlip(db, id);
    hide WorkerStep, Ready, Activate, Finish, Record, Missing;
  }

  lemma EmptyIff(s: set<Chunk>)
    ensures |s| == 0 <==> s == {}
  {
  }

  lemma StepDrains(db: Db, id: nat, fault: Fault)
    requires Ready(db, id) && Left(db, id) > 0 && !Strikes(fault, false)
    ensures var (db', outcome) := WorkerStep(db, fault);
            var n := if Left(db, id) < BATCH_SIZE then Left(db, id) else BATCH_SIZE;
            && outcome == Progressed && Ready(db', id)
            && Left(db', id) == Left(db, id) - n
            && db'.migrations[id].backfill == db.migrations[id].backfill + n
            && db'.migrations[id].to == db.migrations[id].to
  {
    var table := db.migrations[id].toTable;
    var batch := AsSet(MissingBatch(db, table));
    EmptyIff(Missing(db, table));
    BatchIsMissing(db, table);
    ReadyStep(db, id, fault);
    RecordDrains(db, id, batch);
    hide WorkerStep, Record, Missing, FirstOf, ActiveId;
  }

  lemma RecordDrains(db: Db, id: nat, batch: set<Chunk>)
    requires Ready(db, id) && batch <= Missing(db, db.migrations[id].toTable)
    ensures var db' := Record(db, id, db.migrations[id].toTable, batch, Backfill);
            && Ready(db', id) && Left(db', id) == Left(db, id) - |batch|
            && db'.migrations[id].backfill == db.migrations[id].backfill + |batch|
  {
    var table := db.migrations[id].toTable;
    var db' := Record(db, id, table, batch, Backfill);
    assert batch - db.tables[table] == batch;
    assert Missing(db', table) == Missing(db, table) - batch;
    SameActive(db, db', id);
  }

  lemma SameActive(db: Db, db': Db, id: nat)
    requires ActiveId(db) == Some(id) && |db'.migrations| == |db.migrations|
    requires forall i | 0 <= i < |db.migrations| :: db'.migrations[i].status == db.migrations[i].status
    ensures ActiveId(db') == Some(id)
  {
    SameActiveFrom(db, db', 0);
  }

  lemma {:induction false} SameActiveFrom(db: Db, db': Db, i: nat)
    requires |db'.migrations| == |db.migrations|
    requires forall i | 0 <= i < |db.migrations| :: db'.migrations[i].status == db.migrations[i].status
    ensures ActiveFrom(db', i) == ActiveFrom(db, i)
    decreases |db.migrations| - i
  {
    if i < |db.migrations| && db.migrations[i].status != InProgress {
      SameActiveFrom(db, db', i + 1);
    }
  }

  // What is left of m chunks after k batches.
  function Remaining(m: nat, k: nat): nat {
    if k == 0 then m else
    var left := Remaining(m, k - 1);
    if left < BATCH_SIZE then 0 else left - BATCH_SIZE
  }

  lemma {:induction false} RemainingIs(m: nat, k: nat)
    ensures Remaining(m, k) == if m < k * BATCH_SIZE then 0 else m - k * BATCH_SIZE
  {
    if k > 0 {
      RemainingIs(m, k - 1);
    }
  }

  // The migration as it stands after k batches.
  ghost predicate After(db: Db, d: Db, id: nat, k: nat) {
    && ActiveId(db) == Some(id) && Ready(d, id)
    && d.migrations[id].to == db.migrations[id].to
    && Left(d, id) == Remaining(Left(db, id), k)
    && d.migrations[id].backfill == db.migrations[id].backfill + Left(db, id) - Left(d, id)
  }

  lemma FaultKeepsAfter(db: Db, d: Db, id: nat, k: nat, fault: Fault)
    requires After(db, d, id, k) && WorkerStep(d, fault).1 == Failed
    ensures After(db, WorkerStep(d, fault).0, id, k)
  {
    FaultsOnlyDelay(d, id, fault);
    FlipKeepsCounts(d, id);
    hide WorkerStep, Activate, Left, ActiveId, Remaining;
  }

  lemma BatchMovesAfter(db: Db, d: Db, id: nat, k: nat, fault: Fault)
    requires After(db, d, id, k) && Left(d, id) > 0 && !Strikes(fault, false)
    ensures After(db, WorkerStep(d, fault).0, id, k + 1)
  {
    StepDrains(d, id, fault);
    RemainingStep(Left(db, id), k);
    hide WorkerStep, Left, ActiveId, Remaining;
  }

  lemma OneStepOn(db: Db, d: Db, id: nat, k: nat, fault: Fault)
    requires After(db, d, id, k)
    ensures var (d', outcome) := WorkerStep(d, fault);
            && (outcome != Progressed ==> After(db, d', id, k))
            && (outcome == Progressed && Left(d, id) > 0 ==> After(db, d', id, k + 1))
  {
    AfterIs(db, d, id, k);
    FaultsOnlyDelay(d, id, fault);
    hide WorkerStep, Activate, Left, Ready, Remaining, After, Strikes;
    if WorkerStep(d, fault).1 == Failed {
      FaultKeepsAfter(db, d, id, k, fault);
    } else if Left(d, id) > 0 {
      BatchMovesAfter(db, d, id, k, fault);
    }
  }

  lemma FlipKeepsCounts(db: Db, id: nat)
    requires id < |db.migrations|
    ensures var db' := Activate(db, db.migrations[id].to); db'.migrations == db.migrations && Left(db', id) == Left(db, id)
  {
  }

  lemma RemainingStep(m: nat, k: nat)
    ensures var left := Remaining(m, k); Remaining(m, k + 1) == if left < BATCH_SIZE then 0 else left - BATCH_SIZE
  {
  }

  lemma DrainSnoc(db: Db, faults: seq<Fault>, last: Fault)
    ensures var (d, outcome) := WorkerStep(Drain(db, faults), last);
            && Drain(db, faults + [last]) == d
            && Progress(db, faults + [last]) == Progress(db, faults) + if outcome == Progressed then 1 else 0
  {
    assert (faults + [last])[..|faults|] == faults;
    hide WorkerStep;
  }

  lemma NothingDone(db: Db, id: nat)
    requires Ready(db, id)
    ensures id < |db.migrations| && Progress(db, []) == 0 && After(db, Drain(db, []), id, 0)
  {
  }

  lemma {:induction false} DrainRemaining(db: Db, id: nat, faults: seq<Fault>)
    requires Ready(db, id) && (Progress(db, faults) > 0 ==> Remaining(Left(db, id), Progress(db, faults) - 1) > 0)
    ensures After(db, Drain(db, faults), id, Progress(db, faults))
  {
    hide WorkerStep, Ready, After, Drain, Progress;
    NothingDone(db, id);
    if faults != [] {
      var init, last := faults[..|faults| - 1], faults[|faults| - 1];
      assert faults == init + [last];
      DrainSnoc(db, init, last);
      var k := Progress(db, init);
      if k > 0 && Progress(db, faults) == k + 1 {
        MoreRemains(Left(db, id), k);
      }
      DrainRemaining(db, id, init);
      OneStepOn(db, Drain(db, init), id, k, last);
      AfterIs(db, Drain(db, init), id, k);
    }
  }

  lemma AfterIs(db: Db, d: Db, id: nat, k: nat)
    requires After(db, d, id, k)
    ensures id < |db.migrations| && id < |d.migrations| && Ready(d, id) && d.migrations[id].to == db.migrations[id].to
    ensures Left(d, id) == Remaining(Left(db, id), k)
    ensures d.migrations[id].backfill == db.migrations[id].backfill + Left(db, id) - Left(d, id)
  {
  }

  lemma MoreRemains(m: nat, k: nat)
    requires k > 0 && Remaining(m, k) > 0
    ensures Remaining(m, k - 1) > 0
  {
  }

  // Whatever fails in between, after k steps that did not, min(m, 32k) of the m
  // missing chunks have landed.
  lemma DrainProgress(db: Db, id: nat, faults: seq<Fault>)
    requires Ready(db, id) && (Progress(db, faults) - 1) * BATCH_SIZE < Left(db, id)
    ensures var d, k := Drain(db, faults), Progress(db, faults);
            && Ready(d, id) && d.migrations[id].to == db.migrations[id].to
            && Left(d, id) == (if Left(db, id) < k * BATCH_SIZE then 0 else Left(db, id) - k * BATCH_SIZE)
            && d.migrations[id].backfill == db.migrations[id].backfill + Left(db, id) - Left(d, id)
  {
    hide WorkerStep, Drain, Progress, Remaining, After, Missing, ActiveId;
    var k := Progress(db, faults);
    if k > 0 {
      RemainingIs(Left(db, id), k - 1);
    }
    RemainingIs(Left(db, id), k);
    DrainRemaining(db, id, faults);
    AfterIs(db, Drain(db, faults), id, k);
  }

  // m missing chunks take exactly ceil(m / 32) batches and one last step, which
  // makes the to-provider active and completes the row; failures in between
  // only put it off, even one that strikes after the flip.
  lemma FinishesInTime(db: Db, id: nat, faults: seq<Fault>, last: Fault)
    requires Ready(db, id)
    requires Progress(db, faults) == (Left(db, id) + BATCH_SIZE - 1) / BATCH_SIZE
    ensures var before := Drain(db, faults);
            && Ready(before, id) && Left(before, id) == 0
            && (WorkerStep(before, last).1 == Progressed <==> !Strikes(last, true))
            && var after := WorkerStep(before, last).0;
               && (forall r | r in after.providers :: !Strikes(last, true) || last == AtFinish ==>
                     (after.providers[r].active <==> r == db.migrations[id].to))
               && (!Strikes(last, true) ==>
                     && id < |after.migrations| && after.migrations[id].status == Complete
                     && after.migrations[id].backfill == db.migrations[id].backfill + Left(db, id))
  {
    DrainProgress(db, id, faults);
    var before := Drain(db, faults);
    FaultsOnlyDelay(before, id, last);
    CoveredStep(before, id, last);
  }

  lemma CoveredStep(db: Db, id: nat, fault: Fault)
    requires Ready(db, id) && Left(db, id) == 0
    ensures !Strikes(fault, true) ==> WorkerStep(db, fault).0 == Finish(Activate(db, db.migrations[id].to), id, Complete)
  {
    EmptyIff(Missing(db, db.migrations[id].toTable));
    ReadyStep(db, id, fault);
    hide WorkerStep;
  }

  // The interleaved worker, left alone, does the same: three steps for a batch,
  // four for the flip.
  lemma AloneIsBatch(slug: Ref -> Table, w: World, t: nat, id: nat)
    requires t in w.procs && w.procs[t] == WIdle && Ready(w.db, id) && Left(w.db, id) > 0
    ensures var w3 := Step(slug, Step(slug, Step(slug, w, t, Go), t, Go), t, Go);
            w3.db == WorkerStep(w.db, NoFault).0 && t in w3.procs && w3.procs[t] == WIdle
  {
    hide *;
    BatchStep(w.db, id);
    FindsWork(slug, w, t, id);
    var m, w1 := w.db.migrations[id], Step(slug, w, t, Go);
    TakesBatch(slug, w1, t, id, m.to, m.toTable);
    LandsBatch(slug, Step(slug, w1, t, Go), t, id, m.toTable, AsSet(MissingBatch(w.db, m.toTable)));
  }

  lemma BatchStep(db: Db, id: nat)
    requires Ready(db, id) && Left(db, id) > 0
    ensures id < |db.migrations|
    ensures var table := db.migrations[id].toTable; var batch := AsSet(MissingBatch(db, table));
            && table in db.tables && Missing(db, table) != {} && CanRecord(db, id, table, batch)
            && WorkerStep(db, NoFault).0 == Record(db, id, table, batch, Backfill)
  {
    hide WorkerStep, Record, MissingBatch, AsSet, ActiveId;
    var table := db.migrations[id].toTable;
    BatchIsMissing(db, table);
    EmptyIff(Missing(db, table));
    ReadyStep(db, id, NoFault);
    MissingIsLive(db, table);
    hide Missing;
  }

  lemma MissingIsLive(db: Db, table: Table)
    ensures Missing(db, table) <= db.chunks
  {
  }

  lemma FindsWork(slug: Ref -> Table, w: World, t: nat, id: nat)
    requires t in w.procs && w.procs[t] == WIdle && Ready(w.db, id)
    ensures var w' := Step(slug, w, t, Go); var m := w.db.migrations[id];
            w'.db == w.db && t in w'.procs && w'.procs[t] == WFound(id, m.to, m.toTable)
  {
    var m := w.db.migrations[id];
    StepIs(slug, w, t, Go, ARead, WFound(id, m.to, m.toTable));
    hide Step, Advance;
  }

  lemma TakesBatch(slug: Ref -> Table, w: World, t: nat, id: nat, to: Ref, table: Table)
    requires t in w.procs && w.procs[t] == WFound(id, to, table) && table in w.db.tables && Missing(w.db, table) != {}
    ensures var w' := Step(slug, w, t, Go);
            w'.db == w.db && t in w'.procs && w'.procs[t] == WBatch(id, table, AsSet(MissingBatch(w.db, table)))
  {
    StepIs(slug, w, t, Go, ARead, WBatch(id, table, AsSet(MissingBatch(w.db, table))));
    hide Step, Advance;
  }

  lemma LandsBatch(slug: Ref -> Table, w: World, t: nat, id: nat, table: Table, batch: set<Chunk>)
    requires t in w.procs && w.procs[t] == WBatch(id, table, batch) && CanRecord(w.db, id, table, batch)
    ensures var w' := Step(slug, w, t, Go);
            w'.db == Record(w.db, id, table, batch, Backfill) && t in w'.procs && w'.procs[t] == WIdle
  {
    StepIs(slug, w, t, Go, ARecord(id, table, batch, Backfill), WIdle);
    hide Step, Advance, Record;
  }

  lemma AloneIsFlip(slug: Ref -> Table, w: World, t: nat, id: nat)
    requires t in w.procs && w.procs[t] == WIdle && Ready(w.db, id) && Left(w.db, id) == 0
    ensures var w4 := Step(slug, Step(slug, Step(slug, Step(slug, w, t, Go), t, Go), t, Go), t, Go);
            w4.db == WorkerStep(w.db, NoFault).0 && t in w4.procs && w4.procs[t] == WIdle
  {
    hide *;
    FlipStep(w.db, id);
    FindsWork(slug, w, t, id);
    var m, w1 := w.db.migrations[id], Step(slug, w, t, Go);
    SeesCover(slug, w1, t, id, m.to, m.toTable);
    Flips(slug, Step(slug, w1, t, Go), t, id, m.to);
  }

  lemma FlipStep(db: Db, id: nat)
    requires Ready(db, id) && Left(db, id) == 0
    ensures id < |db.migrations| && Running(db, id) && db.providers != map[]
    ensures var m := db.migrations[id];
            && m.toTable in db.tables && Missing(db, m.toTable) == {} && Running(Activate(db, m.to), id)
            && WorkerStep(db, NoFault).0 == Finish(Activate(db, m.to), id, Complete)
  {
    hide WorkerStep, Missing;
    EmptyIff(Missing(db, db.migrations[id].toTable));
    ReadyStep(db, id, NoFault);
  }

  lemma SeesCover(slug: Ref -> Table, w: World, t: nat, id: nat, to: Ref, table: Table)
    requires t in w.procs && w.procs[t] == WFound(id, to, table) && table in w.db.tables && Missing(w.db, table) == {}
    ensures var w' := Step(slug, w, t, Go); w'.db == w.db && t in w'.procs && w'.procs[t] == WFlip(id, to)
  {
    StepIs(slug, w, t, Go, ARead, WFlip(id, to));
    hide Step, Advance;
  }

  lemma Flips(slug: Ref -> Table, w: World, t: nat, id: nat, to: Ref)
    requires t in w.procs && w.procs[t] == WFlip(id, to) && Running(w.db, id) && w.db.providers != map[]
    ensures var w' := Step(slug, Step(slug, w, t, Go), t, Go);
            Running(Activate(w.db, to), id) && w'.db == Finish(Activate(w.db, to), id, Complete) && t in w'.procs
                && w'.procs[t] == WIdle
  {
    var w1 := Step(slug, w, t, Go);
    StepIs(slug, w, t, Go, AActivate(to), WFinish(id));
    StepIs(slug, w1, t, Go, AFinish(id, Complete), WIdle);
  }
}
