// The link graph beside note content: how a reference resolves, how indexing,
// relinking, referrer repair and deletion change edges, and the audit.
module LinkGraph {
  import opened LinkText
  import opened Text

  type Path = string
  type Id = nat // a note's UUID: written once, survives moves

  // What the index stores of a note: its id and project, its body, and its
  // `sources` entries as written.
  datatype Row = Row(id: Id, project: string, body: string, sources: seq<string>)
  datatype Note = Note(path: Path, row: Row)

  // notes by path, links as (source id, destination id).
  datatype Ix = Ix(rows: map<Path, Row>, links: set<(Id, Id)>)

  // ---- reference text ----

  function CutAnchor(s: string): string {
    if s == [] || s[0] == '|' || s[0] == '#' then [] else [s[0]] + CutAnchor(s[1..])
  }

  // cleanName: delimiters, alias, anchor and surrounding space off. A project
  // qualifier stays in front, so the result is also the key links resolve by.
  function CleanName(raw: string): string {
    var s := Trim(raw);
    var t := if "[[" <= s then s[2..] else s;
    var u := if |t| >= 2 && t[|t| - 2..] == "]]" then t[..|t| - 2] else t;
    Trim(CutAnchor(u))
  }

  // Targets, as the keys they resolve by.
  function Keys(row: Row): set<string> {
    set raw | raw in row.sources + Wikilinks(row.body) && CleanName(raw) != "" :: CleanName(raw)
  }

  // ---- resolution ----

  // A key with a colon names "project:basename", any other a basename.
  predicate Hits(p: Path, row: Row, key: string) {
    if ':' in key then row.project != "" && row.project + ":" + Base(p) == key else Base(p) == key
  }

  predicate HitsAt(rows: map<Path, Row>, p: Path, key: string) {
    p in rows && Hits(p, rows[p], key)
  }

  ghost predicate IsFirst(rows: map<Path, Row>, p: Path, key: string) {
    HitsAt(rows, p, key) && forall q | HitsAt(rows, q, key) :: q == p || Less(p, q)
  }

  // ResolveBasenames: the first note in path order that the key names.
  ghost function Resolve(rows: map<Path, Row>, key: string): (r: Option<Id>)
    ensures r.None? <==> forall q :: !HitsAt(rows, q, key)
    ensures r.Some? ==> exists p :: IsFirst(rows, p, key) && rows[p].id == r.value
  {
    if exists q :: HitsAt(rows, q, key) then
      FirstExists(rows, key);
      var p :| IsFirst(rows, p, key);
      Some(rows[p].id)
    else None
  }

  lemma FirstExists(rows: map<Path, Row>, key: string)
    requires exists q :: HitsAt(rows, q, key)
    ensures exists p :: IsFirst(rows, p, key)
  {
    var q :| HitsAt(rows, q, key);
    var hits := set p | p in rows && Hits(p, rows[p], key);
    assert q in hits;
    var p := Smallest(hits);
    assert IsFirst(rows, p, key);
  }

  lemma {:induction false} Smallest(s: set<Path>) returns (m: Path)
    requires s != {}
    ensures m in s && forall p | p in s :: p == m || Less(m, p)
    decreases s
  {
    m :| m in s;
    if p :| p in s && p != m && !Less(m, p) {
      LessIsTotal(m, p);
      var below := set x | x in s && Less(x, m);
      LessIsStrict(m);
      assert m !in below && p in below;
      var least := Smallest(below);
      forall x | x in s ensures x == least || Less(least, x) {
        if x !in below {
          LessIsTotal(m, x);
          if x != m { LessIsTransitive(least, m, x); }
        }
      }
      m := least;
    }
  }

  lemma FirstIsUnique(rows: map<Path, Row>, p: Path, q: Path, key: string)
    requires IsFirst(rows, p, key) && IsFirst(rows, q, key)
    ensures p == q
  {
    if p != q {
      LessIsTransitive(p, q, p);
      LessIsStrict(p);
    }
  }

  // Resolution reads only the rows a key names.
  lemma SameHitsResolveSame(rows: map<Path, Row>, rows': map<Path, Row>, key: string)
    requires forall p | HitsAt(rows, p, key) :: HitsAt(rows', p, key) && rows[p].id == rows'[p].id
    requires forall p | HitsAt(rows', p, key) :: HitsAt(rows, p, key)
    ensures Resolve(rows, key) == Resolve(rows', key)
  {
    if Resolve(rows, key).Some? && Resolve(rows', key).Some? {
      var p :| IsFirst(rows, p, key) && rows[p].id == Resolve(rows, key).value;
      var q :| IsFirst(rows', q, key) && rows'[q].id == Resolve(rows', key).value;
      assert IsFirst(rows', p, key);
      FirstIsUnique(rows', p, q, key);
    }
  }

  // resolveLinks / linksFrom: dangling references and self-links dropped.
  ghost function Want(rows: map<Path, Row>, row: Row): set<Id> {
    set key | key in Keys(row) && Resolve(rows, key).Some? && Resolve(rows, key).value != row.id :: Resolve(rows, key).value
  }

  // ---- the audit's notion of agreement ----

  ghost function Out(links: set<(Id, Id)>, src: Id): set<Id> {
    set l | l in links && l.0 == src :: l.1
  }

  function Ids(rows: map<Path, Row>): set<Id> {
    set p | p in rows :: rows[p].id
  }

  // AuditGraph's OK: every note's edges are what its content implies.
  ghost predicate Clean(ix: Ix) {
    forall p | p in ix.rows :: CleanAt(ix, p)
  }

  ghost predicate CleanAt(ix: Ix, p: Path)
    requires p in ix.rows
  {
    Out(ix.links, ix.rows[p].id) == Want(ix.rows, ix.rows[p])
  }

  // Unique ids, and foreign keys on both ends of every edge.
  ghost predicate WellFormed(ix: Ix) {
    && (forall p, q | p in ix.rows && q in ix.rows && ix.rows[p].id == ix.rows[q].id :: p == q)
    && (forall l | l in ix.links :: l.0 in Ids(ix.rows) && l.1 in Ids(ix.rows))
  }

  // ---- operations ----

  // SetLinks: a note's outbound edges replaced.
  function SetLinks(links: set<(Id, Id)>, src: Id, dsts: set<Id>): set<(Id, Id)> {
    (set l | l in links && l.0 != src) + (set d | d in dsts :: (src, d))
  }

  function Without(links: set<(Id, Id)>, id: Id): set<(Id, Id)> {
    set l | l in links && l.0 != id && l.1 != id
  }

  // upsertNoteTx: another note at the path is evicted, the same note at another
  // path moves here.
  function Upsert(rows: map<Path, Row>, n: Note): map<Path, Row> {
    (map p | p in rows && p != n.path && rows[p].id != n.row.id :: rows[p])[n.path := n.row]
  }

  function Evicted(rows: map<Path, Row>, n: Note): Option<Id> {
    if n.path in rows && rows[n.path].id != n.row.id then Some(rows[n.path].id) else None
  }

  // Index: links resolve against the index as it was, then one transaction
  // upserts the note and replaces its edges. An edge to the very note being
  // evicted breaks the foreign key and nothing lands.
  ghost function IndexNote(ix: Ix, n: Note): Option<Ix> {
    var want := Want(ix.rows, n.row);
    var evicted := Evicted(ix.rows, n);
    if evicted.Some? && evicted.value in want then None else
    var kept := if evicted.Some? then Without(ix.links, evicted.value) else ix.links;
    Some(Ix(Upsert(ix.rows, n), SetLinks(kept, n.row.id, want)))
  }

  // ReferrersOf: what LIKE finds of `[[name]]` in the body, or exactly that as a
  // source.
  predicate Mentions(row: Row, names: set<string>) {
    exists name | name in names :: name != "" && (Finds(row.body, name) || Bracketed(name) in row.sources)
  }

  // Relinking a set of notes against one index, in any order.
  ghost function RelinkAll(ix: Ix, paths: set<Path>): Ix {
    var ids := set p | p in paths && p in ix.rows :: ix.rows[p].id;
    ix.(links := (set l | l in ix.links && l.0 !in ids)
                 + (set p, d | p in paths && p in ix.rows && d in Want(ix.rows, ix.rows[p]) :: (ix.rows[p].id, d)))
  }

  function DeleteNote(ix: Ix, p: Path): Ix {
    if p in ix.rows then Ix(ix.rows - {p}, Without(ix.links, ix.rows[p].id)) else ix
  }

  // ---- batches ----

  // The first pass: every drifted file in turn, failures left out.
  ghost function IndexBatch(ix: Ix, batch: seq<Note>): (Ix, seq<Note>) {
    if batch == [] then (ix, []) else
    var (before, done) := IndexBatch(ix, batch[..|batch| - 1]);
    var n := batch[|batch| - 1];
    match IndexNote(before, n)
    case None => (before, done)
    case Some(after) => (after, done + [n])
  }

  function Names(batch: seq<Note>): set<string> {
    set i | 0 <= i < |batch| :: Base(batch[i].path)
  }

  function Paths(batch: seq<Note>): set<Path> {
    set i | 0 <= i < |batch| :: batch[i].path
  }

  ghost function Referrers(ix: Ix, batch: seq<Note>): set<Path> {
    set p | p in ix.rows && p !in Paths(batch) && Mentions(ix.rows[p], Names(batch))
  }

  // Second and third pass: relink the batch (if it has company), then whoever
  // mentions it.
  ghost function Repair(ix: Ix, done: seq<Note>): Ix {
    var relinked := if |done| > 1 then RelinkAll(ix, Paths(done)) else ix;
    RelinkAll(relinked, Referrers(relinked, done))
  }

  ghost function DeleteAll(ix: Ix, gone: seq<Path>): Ix {
    if gone == [] then ix else DeleteNote(DeleteAll(ix, gone[..|gone| - 1]), gone[|gone| - 1])
  }

  ghost function Reconciled(ix: Ix, batch: seq<Note>, gone: seq<Path>): Ix {
    var (indexed, done) := IndexBatch(ix, batch);
    DeleteAll(Repair(indexed, done), gone)
  }
}
