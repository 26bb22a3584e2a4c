// The promise for ordinary vaults, and the index as the daemon updates it.
module LinkVault {
  import opened LinkText
  import opened Text
  import opened LinkGraph
  import opened LinkRepair

  // ---- vaults with unique basenames and plain references ----

  // Every reference is written [[name]], with no alias, anchor or qualifier, and
  // no backslash where LIKE would look for it.
  predicate Plain(row: Row) {
    && (forall raw | raw in Wikilinks(row.body) && CleanName(raw) != "" ::
          raw == CleanName(raw) && ':' !in raw && '\\' !in raw)
    && (forall raw | raw in row.sources && CleanName(raw) != "" :: raw == Bracketed(CleanName(raw)) && ':' !in raw)
  }

  ghost predicate UniqueBases(rows: map<Path, Row>) {
    forall p, q | p in rows && q in rows && Base(p) == Base(q) :: p == q
  }

  // A note that moves keeps its basename.
  ghost predicate NoRename(rows: map<Path, Row>, batch: seq<Note>) {
    forall n, q | n in batch && q in rows && rows[q].id == n.row.id :: Base(q) == Base(n.path)
  }

  lemma PlainKeys(row: Row, key: string)
    requires Plain(row) && key in Keys(row)
    ensures key != "" && ':' !in key && (Finds(row.body, key) || Bracketed(key) in row.sources)
  {
    var raw :| raw in row.sources + Wikilinks(row.body) && CleanName(raw) != "" && CleanName(raw) == key;
    if raw in Wikilinks(row.body) {
      WikilinksAre(row.body, raw);
      FindsLiteral(row.body, raw);
    }
    hide CleanName;
  }

  lemma TouchedNameIsNew(rows: map<Path, Row>, done: seq<Note>, key: string)
    requires NoRename(rows, done) && ':' !in key && Touches(rows, done, key)
    ensures key in Names(done)
  {
    if q :| q in rows && Disturbed(rows, done, q) && Hits(q, rows[q], key) {
      if q in Paths(done) {
        var i :| 0 <= i < |done| && done[i].path == q;
      } else {
        var i :| 0 <= i < |done| && done[i].row.id == rows[q].id;
        assert done[i] in done;
      }
    }
  }

  lemma PlainIsSeen(rows: map<Path, Row>, done: seq<Note>)
    requires NoRename(rows, done) && forall p | p in rows :: Plain(rows[p])
    ensures Seen(rows, done)
  {
    forall p | p in rows && !Untouched(rows, done, rows[p]) ensures Mentions(rows[p], Names(done)) {
      var key :| key in Keys(rows[p]) && Touches(rows, done, key);
      PlainKeys(rows[p], key);
      TouchedNameIsNew(rows, done, key);
    }
  }

  lemma UniqueIsAlone(rows: map<Path, Row>, n: Note)
    requires NoRename(rows, [n]) && Plain(n.row) && UniqueBases(Upsert(rows, n))
    ensures Alone(rows, n)
  {
    var after := Upsert(rows, n);
    forall key, q | key in Keys(n.row) && Touches(rows, [n], key) && HitsAt(rows, q, key)
      ensures rows[q].id == n.row.id || q == n.path
    {
      PlainKeys(n.row, key);
      TouchedNameIsNew(rows, [n], key);
      assert Base(q) == Base(n.path);
      assert q in after || rows[q].id == n.row.id;
    }
  }

  // With unique basenames a name that meant a gone note means nobody.
  lemma UniqueHasNoHeir(rows: map<Path, Row>, gone: set<Path>, key: string)
    requires UniqueBases(rows) && UniqueIds(rows) && ':' !in key
    requires Resolve(rows, key).Some? && Resolve(rows, key).value in GoneIds(rows, gone)
    ensures Heir(rows, gone, key) == None
  {
    var first :| IsFirst(rows, first, key) && rows[first].id == Resolve(rows, key).value;
    var p :| p in gone && p in rows && rows[p].id == rows[first].id;
    forall q ensures !HitsAt(rows - gone, q, key) {
      assert HitsAt(rows - gone, q, key) ==> Base(q) == Base(p);
    }
  }

  lemma UniqueIsUnharmed(rows: map<Path, Row>, gone: set<Path>, q: Path)
    requires UniqueBases(rows) && UniqueIds(rows) && q in rows && Plain(rows[q])
    ensures Unharmed(rows, gone, q)
  {
    forall key | key in Keys(rows[q]) && Resolve(rows, key).Some? && Resolve(rows, key).value in GoneIds(rows, gone)
      ensures Harmless(rows, gone, q, key)
    {
      PlainKeys(rows[q], key);
      UniqueHasNoHeir(rows, gone, key);
    }
  }

  lemma DeletionsKeepClean(ix: Ix, gone: seq<Path>)
    requires WellFormed(ix) && Clean(ix) && UniqueBases(ix.rows) && forall p | p in ix.rows :: Plain(ix.rows[p])
    ensures var after := DeleteAll(ix, gone);
            && WellFormed(after) && Clean(after) && UniqueBases(after.rows)
            && forall p | p in after.rows :: p in ix.rows && after.rows[p] == ix.rows[p]
  {
    DeleteAllIs(ix, gone);
    forall q | q in ix.rows && q !in gone ensures Unharmed(ix.rows, AsPaths(gone), q) {
      UniqueIsUnharmed(ix.rows, AsPaths(gone), q);
    }
    DeleteKeepsCleanIff(ix, gone);
  }

  // The law reconciliation is for: from a clean audit, any batch of drifted
  // files in any order, relinked and repaired, then any deletions, leaves no
  // edge missing and none too many.
  lemma ReconcileRestores(ix: Ix, batch: seq<Note>, gone: seq<Path>)
    requires WellFormed(ix) && Clean(ix) && Distinct(batch)
    requires (forall p | p in ix.rows :: Plain(ix.rows[p])) && (forall n | n in batch :: Plain(n.row))
    requires NoRename(ix.rows, batch) && UniqueBases(IndexBatch(ix, batch).0.rows)
    ensures WellFormed(Reconciled(ix, batch, gone)) && Clean(Reconciled(ix, batch, gone))
  {
    var (indexed, done) := IndexBatch(ix, batch);
    BatchIndexed(ix, batch);
    PlainIsSeen(ix.rows, done);
    if |done| == 1 {
      assert done == [done[0]] && done[0] in batch;
      UniqueIsAlone(ix.rows, done[0]);
    }
    RepairRestores(ix, batch);
    forall p | p in indexed.rows ensures Plain(indexed.rows[p]) {
      if p in Paths(done) {
        var i :| 0 <= i < |done| && done[i].path == p;
        assert done[i] in done;
      }
    }
    DeletionsKeepClean(Repair(indexed, done), gone);
  }

  // A move to a free path keeps the note's id and every edge into it.
  lemma MoveKeepsInbound(ix: Ix, n: Note, src: Id)
    requires n.path !in ix.rows && src != n.row.id
    ensures var after := IndexNote(ix, n);
            after.Some? && n.path in after.value.rows && after.value.rows[n.path].id == n.row.id
            && ((src, n.row.id) in after.value.links <==> (src, n.row.id) in ix.links)
  {
  }

  // ---- what the literal reverse lookup misses ----

  lemma IndexOne(ix: Ix, n: Note)
    requires n.path !in ix.rows
    ensures IndexBatch(ix, [n]) == (IndexNote(ix, n).value, [n])
  {
    var one := [n];
    assert one[..|one| - 1] == [];
    assert IndexBatch(ix, one[..|one| - 1]) == (ix, []);
    assert [] + [n] == one;
  }

  // For a new note under an unused name, one run repairs the graph exactly when
  // the reverse lookup finds every note that refers to it.
  lemma NewNoteRepairedIff(ix: Ix, n: Note)
    requires WellFormed(ix) && Clean(ix) && n.path !in ix.rows && n.row.id !in Ids(ix.rows)
    requires forall q | q in ix.rows :: Base(q) != Base(n.path)
    requires forall key, q | Hits(n.path, n.row, key) && q in ix.rows :: !Hits(q, ix.rows[q], key)
    ensures Clean(Reconciled(ix, [n], [])) <==>
            forall p, key | p in ix.rows && key in Keys(ix.rows[p]) && Hits(n.path, n.row, key) ::
              Mentions(ix.rows[p], {Base(n.path)})
  {
    IndexOne(ix, n);
    var indexed := IndexNote(ix, n).value;
    assert [n][0] == n;
    assert Names([n]) == {Base(n.path)} && Paths([n]) == {n.path} && BatchIds([n]) == {n.row.id};
    forall q ensures !Disturbed(ix.rows, [n], q) {
      assert q in ix.rows ==> ix.rows[q].id in Ids(ix.rows);
    }
    forall key ensures Touches(ix.rows, [n], key) <==> Hits(n.path, n.row, key) {
    }
    if forall p, key | p in ix.rows && key in Keys(ix.rows[p])
        && Hits(n.path, n.row, key) :: Mentions(ix.rows[p], {Base(n.path)}) {
      RepairRestores(ix, [n]);
    }
    forall p, key | p in ix.rows && key in Keys(ix.rows[p]) && Hits(n.path, n.row, key)
        && !Mentions(ix.rows[p], {Base(n.path)})
      ensures !Clean(Reconciled(ix, [n], []))
    {
      MissedReferrer(ix, n, p, key);
    }
  }

  // The missed note's edges are untouched, so the new note is not among them.
  lemma NotRelinked(ix: Ix, n: Note, p: Path)
    requires WellFormed(ix) && Clean(ix) && n.path !in ix.rows && n.row.id !in Ids(ix.rows)
    requires p in ix.rows && !Mentions(ix.rows[p], {Base(n.path)})
    ensures var repaired := Reconciled(ix, [n], []);
            p in repaired.rows && repaired.rows[p] == ix.rows[p] && n.row.id !in Out(repaired.links, ix.rows[p].id)
  {
    IndexOne(ix, n);
    assert [n][0] == n;
    assert Names([n]) == {Base(n.path)} && Paths([n]) == {n.path};
    var indexed := IndexNote(ix, n).value;
    IndexKeepsWellFormed(ix, n);
    assert ix.rows[p].id in Ids(ix.rows);
    RelinkSets(indexed, Referrers(indexed, [n]), p);
    OneEdgeLost(ix, n, p, n.row.id);
    assert CleanAt(ix, p);
    NotWanted(ix.rows, ix.rows[p], n.row.id);
  }

  lemma NotWanted(rows: map<Path, Row>, row: Row, d: Id)
    requires d !in Ids(rows)
    ensures d !in Want(rows, row)
  {
    forall e | e in Want(rows, row) ensures e in Ids(rows) {
      WantIsKnown(rows, row, e);
    }
  }

  lemma MissedReferrer(ix: Ix, n: Note, p: Path, key: string)
    requires WellFormed(ix) && Clean(ix) && n.path !in ix.rows && n.row.id !in Ids(ix.rows)
    requires forall q | q in ix.rows :: !Hits(q, ix.rows[q], key)
    requires p in ix.rows && key in Keys(ix.rows[p]) && Hits(n.path, n.row, key) && !Mentions(ix.rows[p], {Base(n.path)})
    ensures !Clean(Reconciled(ix, [n], []))
  {
    IndexOne(ix, n);
    var repaired := Reconciled(ix, [n], []);
    NotRelinked(ix, n, p);
    assert repaired.rows == Upsert(ix.rows, n);
    assert IsFirst(repaired.rows, n.path, key);
    assert ix.rows[p].id in Ids(ix.rows);
    Wanted(repaired.rows, ix.rows[p], n.path, key);
    assert !CleanAt(repaired, p);
  }

  lemma Scans(x: string)
    requires IsName(x)
    ensures Wikilinks(Bracketed(x)) == [x]
  {
    InnerMatches(Bracketed(x), x);
    assert Bracketed(x)[|x| + 4..] == "";
  }

  lemma {:induction false} LeftShrinks(s: string)
    ensures |TrimLeft(s)| <= |s| && (|TrimLeft(s)| == |s| ==> TrimLeft(s) == s)
  {
    if s != "" {
      LeftShrinks(s[1..]);
    }
  }

  lemma {:induction false} RightShrinks(s: string)
    ensures |TrimRight(s)| <= |s| && (|TrimRight(s)| == |s| ==> TrimRight(s) == s)
  {
    if s != "" {
      RightShrinks(s[..|s| - 1]);
    }
  }

  lemma TrimShrinks(s: string)
    ensures |Trim(s)| <= |s| && (|Trim(s)| == |s| ==> Trim(s) == s)
  {
    LeftShrinks(s);
    RightShrinks(TrimLeft(s));
    LeftShrinks(TrimRight(s));
    RightShrinks(s);
  }

  lemma {:induction false} CutShrinks(s: string)
    ensures |CutAnchor(s)| <= |s| && (|CutAnchor(s)| == |s| ==> CutAnchor(s) == s)
  {
    if s != "" && s[0] != '|' && s[0] != '#' {
      CutShrinks(s[1..]);
      assert s == [s[0]] + s[1..];
    }
  }

  lemma CleanShrinks(raw: string)
    ensures |CleanName(raw)| <= |raw| && (|CleanName(raw)| == |raw| ==> CleanName(raw) == raw)
  {
    hide Trim, CutAnchor;
    var s := Trim(raw);
    TrimShrinks(raw);
    var t := if "[[" <= s then s[2..] else s;
    assert |t| <= |s| && (|t| == |s| ==> t == s);
    var u := if |t| >= 2 && t[|t| - 2..] == "]]" then t[..|t| - 2] else t;
    assert |u| <= |t| && (|u| == |t| ==> u == t);
    CutShrinks(u);
    TrimShrinks(CutAnchor(u));
    assert CleanName(raw) == Trim(CutAnchor(u));
    hide CleanName;
  }

  // A reference with an alias, an anchor or spaces resolves like a plain one and
  // is not found like one.
  lemma AliasIsMissed(raw: string)
    requires IsName(raw) && CleanName(raw) != "" && CleanName(raw) != raw
    requires NoWildcard(CleanName(raw)) && '\\' !in CleanName(raw)
    ensures var row := Row(1, "", Bracketed(raw), []); CleanName(raw) in Keys(row) && !Mentions(row, {CleanName(raw)})
  {
    Scans(raw);
    CleanShrinks(raw);
    hide CleanName, Wikilinks, Finds, Unescape, Occurs;
    var name, row := CleanName(raw), Row(1, "", Bracketed(raw), []);
    assert raw in row.sources + Wikilinks(row.body);
    LiteralOnly(row.body, name);
    ShorterIsNotInside(raw, name);
  }

  lemma LiteralOnly(body: string, name: string)
    requires NoWildcard(name) && '\\' !in name
    ensures Finds(body, name) <==> Occurs(body, Bracketed(name))
  {
    UnescapeNothing(Bracketed(name));
    FindsIff(body, name);
  }

  // A name with a backslash is not found where it stands literally.
  lemma BackslashIsMissed(name: string)
    requires IsName(name) && NoWildcard(name) && '\\' in name && CleanName(name) == name
    ensures var row := Row(1, "", Bracketed(name), []); name in Keys(row) && !Mentions(row, {name})
  {
    var row := Row(1, "", Bracketed(name), []);
    Scans(name);
    assert name in row.sources + Wikilinks(row.body);
    FindsIff(row.body, name);
    UnescapeShrinks(name);
    ShorterIsNotInside(name, Escaped(name));
  }

  // ---- a note replaced at another path under a new id ----

  // A note at p and one referring to its name; then p is gone and a new note
  // has the name at q. Basenames are unique before and after.
  ghost predicate Replaced(p: Path, q: Path, r: Path, name: string) {
    && Base(p) == name && Base(q) == name && p != q && Base(r) != name
    && IsName(name) && CleanName(name) == name && ':' !in name && '\\' !in name
  }

  ghost function OldVault(p: Path, r: Path, name: string): Ix {
    Ix(map[p := Row(1, "", "", []), r := Row(2, "", Bracketed(name), [])], {(2, 1)})
  }

  function NewNote(q: Path): Note { Note(q, Row(3, "", "", [])) }

  lemma NoKeys(row: Row)
    requires row.body == "" && row.sources == []
    ensures Keys(row) == {}
  {
    assert Wikilinks("") == [] && row.sources + Wikilinks(row.body) == [];
  }

  lemma OneKey(row: Row, name: string)
    requires row.body == Bracketed(name) && row.sources == [] && IsName(name) && CleanName(name) == name
    ensures Keys(row) == {name} && Mentions(row, {name}) == Finds(row.body, name)
  {
    Scans(name);
    hide CleanName, Finds;
    assert row.sources + Wikilinks(row.body) == [name];
    assert forall key :: key in Keys(row) <==> key == name;
  }

  // Whom the name means in each index of the story.
  lemma FirstIs(rows: map<Path, Row>, p: Path, key: string)
    requires IsFirst(rows, p, key)
    ensures Resolve(rows, key) == Some(rows[p].id)
  {
    var q :| IsFirst(rows, q, key) && rows[q].id == Resolve(rows, key).value;
    FirstIsUnique(rows, p, q, key);
  }

  lemma WantsNone(rows: map<Path, Row>, row: Row)
    requires Keys(row) == {}
    ensures Want(rows, row) == {}
  {
  }

  lemma WantsOne(rows: map<Path, Row>, row: Row, key: string, d: Id)
    requires Keys(row) == {key} && Resolve(rows, key) == Some(d) && d != row.id
    ensures Want(rows, row) == {d}
  {
  }

  lemma UnharmedNone(rows: map<Path, Row>, gone: set<Path>, x: Path)
    requires x in rows && Keys(rows[x]) == {}
    ensures Unharmed(rows, gone, x)
  {
  }

  lemma UnharmedOne(rows: map<Path, Row>, gone: set<Path>, x: Path, key: string, d: Id)
    requires x in rows && Keys(rows[x]) == {key} && Resolve(rows, key) == Some(d)
    ensures Unharmed(rows, gone, x) <==> d !in GoneIds(rows, gone) || Harmless(rows, gone, x, key)
  {
  }

  lemma GoneOne(rows: map<Path, Row>, p: Path)
    requires p in rows
    ensures GoneIds(rows, {p}) == {rows[p].id}
  {
  }

  lemma OldRows(p: Path, q: Path, r: Path, name: string)
    requires Replaced(p, q, r, name)
    ensures p != r && q != r && p != q
    ensures Keys(Row(1, "", "", [])) == {} && Keys(NewNote(q).row) == {} && Keys(Row(2, "", Bracketed(name), [])) == {name}
    ensures Mentions(Row(2, "", Bracketed(name), []), {name})
  {
    NoKeys(Row(1, "", "", []));
    NoKeys(NewNote(q).row);
    OneKey(Row(2, "", Bracketed(name), []), name);
    Scans(name);
    WikilinksAre(Bracketed(name), name);
    FindsLiteral(Bracketed(name), name);
    hide Keys, Finds, Bracketed, Wikilinks, Mentions, CleanName;
  }

  // Whom the name means before the run, after it has indexed the new note, and
  // with the old one gone.
  lemma WhoIsMeant(p: Path, q: Path, r: Path, name: string)
    requires Replaced(p, q, r, name) && p != r && q != r
    ensures var was := OldVault(p, r, name).rows; var rows := was[q := NewNote(q).row];
            && Resolve(was, name) == Some(1)
            && Resolve(rows, name) == Some(if Less(q, p) then 3 else 1)
            && Resolve(rows - {p}, name) == Some(3)
  {
    var was := OldVault(p, r, name).rows;
    var rows := was[q := NewNote(q).row];
    hide Bracketed, Base, CleanName, Resolve, Less;
    LessIsTotal(p, q);
    var first := if Less(q, p) then q else p;
    assert IsFirst(was, p, name);
    FirstIs(was, p, name);
    assert IsFirst(rows, first, name);
    FirstIs(rows, first, name);
    assert IsFirst(rows - {p}, q, name);
    FirstIs(rows - {p}, q, name);
  }

  // The rows of the story, and what becomes of them.
  lemma Story(p: Path, q: Path, r: Path, name: string)
    requires Replaced(p, q, r, name)
    ensures var ix := OldVault(p, r, name); var rows := ix.rows[q := NewNote(q).row];
            && (forall x :: x in ix.rows <==> x == p || x == r) && (forall x :: x in rows <==> x == p || x == q || x == r)
            && p != r && q != r && p != q
            && ix.rows[p] == Row(1, "", "", []) && ix.rows[r] == Row(2, "", Bracketed(name), [])
            && rows[p] == ix.rows[p] && rows[r] == ix.rows[r] && rows[q] == NewNote(q).row
            && rows[p].id == 1 && rows[q].id == 3 && rows[r].id == 2
  {
    hide Base, Bracketed, CleanName;
  }

  lemma OldEdges(p: Path, r: Path, name: string)
    ensures Out(OldVault(p, r, name).links, 1) == {} && Out(OldVault(p, r, name).links, 2) == {1}
  {
    hide Bracketed;
    var links := OldVault(p, r, name).links;
    forall d ensures d in Out(links, 2) <==> d == 1 {
      assert (2, 1) in links && (d in Out(links, 2) <==> (2, d) in links);
    }
    forall d ensures d !in Out(links, 1) {
      assert d in Out(links, 1) <==> (1, d) in links;
    }
  }

  lemma CleanAtIs(ix: Ix, x: Path)
    requires x in ix.rows
    ensures CleanAt(ix, x) <==> Out(ix.links, ix.rows[x].id) == Want(ix.rows, ix.rows[x])
  {
  }

  lemma CleanIs(ix: Ix)
    ensures Clean(ix) <==> forall x | x in ix.rows :: CleanAt(ix, x)
  {
  }

  lemma OldVaultIsClean(p: Path, q: Path, r: Path, name: string)
    requires Replaced(p, q, r, name)
    ensures WellFormed(OldVault(p, r, name)) && Clean(OldVault(p, r, name)) && UniqueBases(OldVault(p, r, name).rows)
  {
    hide *;
    var ix := OldVault(p, r, name);
    Story(p, q, r, name);
    OldRows(p, q, r, name);
    WhoIsMeant(p, q, r, name);
    OldVaultIsUnique(p, q, r, name);
    OldEdges(p, r, name);
    WantsOne(ix.rows, ix.rows[r], name, 1);
    WantsNone(ix.rows, ix.rows[p]);
    CleanAtIs(ix, p);
    CleanAtIs(ix, r);
    CleanIs(ix);
  }

  lemma OldVaultIsUnique(p: Path, q: Path, r: Path, name: string)
    requires Replaced(p, q, r, name) && p != r
    ensures WellFormed(OldVault(p, r, name)) && UniqueBases(OldVault(p, r, name).rows)
  {
    hide Bracketed, Base, CleanName;
    var ix := OldVault(p, r, name);
    assert ix.rows[p].id == 1 && ix.rows[r].id == 2;
    assert 1 in Ids(ix.rows) && 2 in Ids(ix.rows);
  }

  lemma NoKeysIsUntouched(rows: map<Path, Row>, done: seq<Note>, row: Row)
    requires Keys(row) == {}
    ensures Untouched(rows, done, row)
  {
  }

  lemma NoKeysIsAlone(rows: map<Path, Row>, n: Note)
    requires Keys(n.row) == {}
    ensures Alone(rows, n)
  {
  }

  lemma OneName(n: Note)
    ensures Names([n]) == {Base(n.path)}
  {
    assert [n][0] == n;
  }

  lemma SeenIs(rows: map<Path, Row>, done: seq<Note>)
    ensures Seen(rows, done) <==>
            forall x | x in rows && !Disturbed(rows, done, x) && !Untouched(rows, done, rows[x]) ::
              Mentions(rows[x], Names(done))
  {
  }

  lemma RepairSeesReferrer(p: Path, q: Path, r: Path, name: string)
    requires Replaced(p, q, r, name)
    ensures var ix := OldVault(p, r, name); Seen(ix.rows, [NewNote(q)]) && Alone(ix.rows, NewNote(q))
  {
    hide Keys, Mentions, Finds, Bracketed, Base, Wikilinks, CleanName, Names, Touches, Disturbed;
    hide Seen, Alone, Untouched, OldVault;
    var ix, n := OldVault(p, r, name), NewNote(q);
    Story(p, q, r, name);
    OldRows(p, q, r, name);
    OneName(n);
    NoKeysIsUntouched(ix.rows, [n], ix.rows[p]);
    NoKeysIsAlone(ix.rows, n);
    SeenIs(ix.rows, [n]);
  }

  // Once relinked, the reference means the first of the two notes; the run ends
  // clean exactly when that is the new one, so not for a note that comes back
  // from archive/ to notes/.
  lemma ReplacedIsRelinkedIff(p: Path, q: Path, r: Path, name: string)
    requires Replaced(p, q, r, name)
    ensures var ix := OldVault(p, r, name); var after := Reconciled(ix, [NewNote(q)], [p]);
            && WellFormed(ix) && Clean(ix) && UniqueBases(ix.rows) && UniqueBases(after.rows)
            && (Clean(after) <==> Less(q, p))
  {
    hide WellFormed, Clean, Seen, Alone, Unharmed, Reconciled, Repair, Base, Bracketed, CleanName;
    var ix, n := OldVault(p, r, name), NewNote(q);
    var rows := ix.rows[q := n.row];
    OldVaultIsClean(p, q, r, name);
    RepairSeesReferrer(p, q, r, name);
    IndexedRows(p, q, r, name);
    ReplacedRows(p, q, r, name);
    ReconcileRestoresIff(ix, [n], [p]);
    ReplacedHarm(p, q, r, name);
    assert AsPaths([p]) == {p};
  }

  lemma IndexedRows(p: Path, q: Path, r: Path, name: string)
    requires Replaced(p, q, r, name)
    ensures var ix, n := OldVault(p, r, name), NewNote(q);
            && n.path !in ix.rows && Distinct([n])
            && IndexBatch(ix, [n]).1 == [n] && IndexBatch(ix, [n]).0.rows == ix.rows[q := n.row]
  {
    var ix, n := OldVault(p, r, name), NewNote(q);
    hide Base, Bracketed, CleanName, Want;
    IndexOne(ix, n);
    assert IndexNote(ix, n).value.rows == ix.rows[q := n.row];
  }

  lemma ReplacedRows(p: Path, q: Path, r: Path, name: string)
    requires Replaced(p, q, r, name)
    ensures UniqueBases(Reconciled(OldVault(p, r, name), [NewNote(q)], [p]).rows)
  {
    hide WellFormed, Clean, Seen, Alone, Repair, Base, Bracketed, CleanName;
    var ix, n := OldVault(p, r, name), NewNote(q);
    OldVaultIsClean(p, q, r, name);
    RepairSeesReferrer(p, q, r, name);
    IndexedRows(p, q, r, name);
    RepairRestores(ix, [n]);
    DeleteAllIs(Repair(IndexBatch(ix, [n]).0, [n]), [p]);
  }

  lemma HarmlessIs(rows: map<Path, Row>, gone: set<Path>, x: Path, key: string, heir: Id)
    requires x in rows && Resolve(rows - gone, key) == Some(heir)
    ensures Harmless(rows, gone, x, key) <==> heir == rows[x].id || heir in Want(rows, rows[x])
  {
  }

  lemma ReplacedHarm(p: Path, q: Path, r: Path, name: string)
    requires Replaced(p, q, r, name)
    ensures var rows := OldVault(p, r, name).rows[q := NewNote(q).row];
            (forall x | x in rows && x !in [p] :: Unharmed(rows, {p}, x)) <==> Less(q, p)
  {
    hide *;
    var rows := OldVault(p, r, name).rows[q := NewNote(q).row];
    var first := if Less(q, p) then 3 else 1;
    Story(p, q, r, name);
    OldRows(p, q, r, name);
    WhoIsMeant(p, q, r, name);
    GoneOne(rows, p);
    WantsOne(rows, rows[r], name, first);
    UnharmedNone(rows, {p}, q);
    UnharmedOne(rows, {p}, r, name, first);
    HarmlessIs(rows, {p}, r, name, 3);
  }
}
