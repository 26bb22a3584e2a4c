// Before a run touches anything: which requests are accepted, what they ask of
// each note, and which notes count as recently cited.
module LifecyclePrecheck {
  import opened Text
  import opened Lifecycle
  import Laws = LifecycleLaws

  const REFRESH_WITHIN: int := 7 * DAY

  // Keys are note ids or vault paths.
  datatype Options = Options(reinforce: set<string>, falsify: map<string, string>, dispute: map<string, string>,
                             supersede: map<string, string>, graduate: set<string>)

  datatype Op = Reinforcing | Falsifying | Disputing

  function KeysOf(o: Options, op: Op): set<string> {
    match op case Reinforcing => o.reinforce case Falsifying => o.falsify.Keys case Disputing => o.dispute.Keys
  }

  predicate Names(n: Note, k: string) { k == n.id || k == n.path }

  predicate IsLive(n: Note) { n.stage == Notes && n.status != Falsified }

  predicate Live(notes: seq<Note>, k: string) {
    exists i | 0 <= i < |notes| :: IsLive(notes[i]) && Names(notes[i], k)
  }

  // The last note a key names, as the lookup maps are overwritten in walk order.
  function LastNamed(notes: seq<Note>, k: string): Option<Note> {
    if notes == [] then None
    else if Names(notes[|notes| - 1], k) then Some(notes[|notes| - 1])
    else LastNamed(notes[..|notes| - 1], k)
  }

  predicate Touches(notes: seq<Note>, o: Options, op: Op, id: string) {
    exists k | k in KeysOf(o, op) :: Resolves(notes, k, id)
  }

  predicate Resolves(notes: seq<Note>, k: string, id: string) {
    LastNamed(notes, k).Some? && LastNamed(notes, k).value.id == id
  }

  // Every key names a live note, every replacement exists beside its falsify.
  predicate AllKnown(notes: seq<Note>, o: Options) {
    && (forall k | k in o.reinforce + o.graduate + o.falsify.Keys + o.dispute.Keys :: Live(notes, k))
    && (forall k | k in o.supersede :: k in o.falsify && LastNamed(notes, o.supersede[k]).Some?)
  }

  predicate Contradicts(notes: seq<Note>, o: Options, id: string) {
    exists a, b :: a != b && Touches(notes, o, a, id) && Touches(notes, o, b, id)
  }

  ghost predicate Accepted(notes: seq<Note>, o: Options) {
    AllKnown(notes, o) && forall id :: !Contradicts(notes, o, id)
  }

  // ---- resolveTargets ----

  predicate Looked(notes: seq<Note>, index: map<string, Note>, k: string) {
    if k in index then LastNamed(notes, k) == Some(index[k]) else LastNamed(notes, k) == None
  }

  lemma {:induction false} NamedIsThere(notes: seq<Note>, k: string)
    ensures LastNamed(notes, k).Some? ==> LastNamed(notes, k).value in notes && Names(LastNamed(notes, k).value, k)
    ensures LastNamed(notes, k).None? ==> forall i | 0 <= i < |notes| :: !Names(notes[i], k)
  {
    if notes != [] {
      NamedIsThere(notes[..|notes| - 1], k);
    }
  }

  lemma LookupStep(notes: seq<Note>, n: Note, index: map<string, Note>, more: seq<Note>, index': map<string, Note>)
    requires forall k :: Looked(notes, index, k)
    requires more == notes + [n] && index' == index[n.id := n][n.path := n]
    ensures forall k :: Looked(more, index', k)
  {
    assert more[..|notes|] == notes;
    forall k ensures Looked(more, index', k) {
      assert Looked(notes, index, k);
    }
  }

  method LookupMap(notes: seq<Note>) returns (index: map<string, Note>)
    ensures forall k :: Looked(notes, index, k)
  {
    index := map[];
    for i := 0 to |notes|
      invariant forall k :: Looked(notes[..i], index, k)
    {
      ghost var before := index;
      index := index[notes[i].id := notes[i]];
      index := index[notes[i].path := notes[i]];
      LookupStep(notes[..i], notes[i], before, notes[..i + 1], index);
    }
    assert notes[..|notes|] == notes;
  }

  method LiveKeys(notes: seq<Note>) returns (live: set<string>)
    ensures forall k :: k in live <==> Live(notes, k)
  {
    live := {};
    for i := 0 to |notes|
      invariant forall k :: k in live <==> exists j | 0 <= j < i :: IsLive(notes[j]) && Names(notes[j], k)
    {
      if IsLive(notes[i]) {
        live := live + {notes[i].id, notes[i].path};
      }
    }
  }

  predicate Recorded(ops: map<string, seq<Op>>, id: string, op: Op) { id in ops && op in ops[id] }

  // Notes under each id which operations were asked of it, once each.
  method Record(ops: map<string, seq<Op>>, notes: seq<Note>, index: map<string, Note>, o: Options, op: Op)
    returns (r: map<string, seq<Op>>)
    requires forall k :: Looked(notes, index, k)
    requires forall id | id in ops :: NoRepeats(ops[id])
    ensures forall id | id in r :: NoRepeats(r[id])
    ensures forall id, x :: Recorded(r, id, x) <==> Recorded(ops, id, x) || (x == op && Touches(notes, o, op, id))
  {
    r := ops;
    var todo, done := KeysOf(o, op), {};
    while todo != {}
      invariant todo + done == KeysOf(o, op)
      invariant forall id | id in r :: NoRepeats(r[id])
      invariant forall id, x :: Recorded(r, id, x) <==>
        Recorded(ops, id, x) || (x == op && exists k | k in done :: Resolves(notes, k, id))
    {
      var k :| k in todo;
      assert Looked(notes, index, k);
      ghost var before, seen := r, done;
      if k in index {
        var id := index[k].id;
        var old' := if id in r then r[id] else [];
        r := r[id := AppendUnique(old', op)];
      }
      todo, done := todo - {k}, done + {k};
      forall id, x ensures Recorded(r, id, x) <==>
          Recorded(ops, id, x) || (x == op && exists k | k in done :: Resolves(notes, k, id)) {
        assert Recorded(r, id, x) <==> Recorded(before, id, x) || (x == op && Resolves(notes, k, id));
        assert (exists k | k in done :: Resolves(notes, k, id)) <==>
               (exists k | k in seen :: Resolves(notes, k, id)) || Resolves(notes, k, id);
      }
    }
  }

  predicate NoRepeats(s: seq<Op>) { forall i, j | 0 <= i < j < |s| :: s[i] != s[j] }

  function AppendUnique(s: seq<Op>, x: Op): (r: seq<Op>)
    requires NoRepeats(s)
    ensures NoRepeats(r) && forall y :: y in r <==> y in s || y == x
  {
    if x in s then s else s + [x]
  }

  // Rejects the whole run unless every key is known and no note is asked two
  // contradictory things; the map it returns renders replacements.
  method ResolveTargets(notes: seq<Note>, o: Options) returns (r: Option<map<string, Note>>)
    ensures r.Some? <==> Accepted(notes, o)
    ensures r.Some? ==> forall k :: Looked(notes, r.value, k)
  {
    var index := LookupMap(notes);
    var live := LiveKeys(notes);
    var known := (forall k | k in o.reinforce + o.graduate + o.falsify.Keys + o.dispute.Keys :: k in live)
              && (forall k | k in o.supersede :: k in o.falsify && o.supersede[k] in index);
    assert known <==> AllKnown(notes, o) by {
      forall k | k in o.supersede ensures o.supersede[k] in index <==> LastNamed(notes, o.supersede[k]).Some? {
        assert Looked(notes, index, o.supersede[k]);
      }
    }
    if !known {
      return None;
    }
    var ops := Record(map[], notes, index, o, Reinforcing);
    ops := Record(ops, notes, index, o, Falsifying);
    ops := Record(ops, notes, index, o, Disputing);
    assert forall id, x :: Recorded(ops, id, x) <==> Touches(notes, o, x, id);
    forall id ensures Contradicts(notes, o, id) <==> id in ops && |ops[id]| > 1 {
      if id in ops && |ops[id]| > 1 {
        assert Recorded(ops, id, ops[id][0]) && Recorded(ops, id, ops[id][1]);
      }
      if Contradicts(notes, o, id) {
        var a, b :| a != b && Touches(notes, o, a, id) && Touches(notes, o, b, id);
        assert Recorded(ops, id, a) && Recorded(ops, id, b);
      }
    }
    if exists id | id in ops :: |ops[id]| > 1 {
      return None;
    }
    r := Some(index);
  }

  // ---- what is asked of each note ----

  function Pick(m: map<string, string>, n: Note): Option<string> {
    if n.id in m then Some(m[n.id]) else if n.path in m then Some(m[n.path]) else None
  }

  function AskOf(notes: seq<Note>, o: Options, n: Note): Ask {
    var repl := Pick(o.supersede, n);
    var wiki := if repl.Some? && LastNamed(notes, repl.value).Some?
                then Base(LastNamed(notes, repl.value).value.path) else "";
    Ask(Pick(o.falsify, n), if repl.Some? then Some("[[" + wiki + "]]") else None, Pick(o.dispute, n),
        n.id in o.reinforce || n.path in o.reinforce, n.id in o.graduate || n.path in o.graduate)
  }

  predicate Asked(notes: seq<Note>, o: Options, op: Op, n: Note) {
    var a := AskOf(notes, o, n);
    match op case Reinforcing => a.reinforce case Falsifying => a.falsify.Some? case Disputing => a.dispute.Some?
  }

  // Paths are unique in a walk; an id that is also some note's path would let
  // one key name two notes.
  predicate Unambiguous(notes: seq<Note>) {
    forall i, j | 0 <= i < |notes| && 0 <= j < |notes| ::
      notes[i].id != notes[j].path && (notes[i].path == notes[j].path ==> i == j)
  }

  lemma KeysResolveToTheirNote(notes: seq<Note>, i: nat, k: string)
    requires Unambiguous(notes) && i < |notes| && Names(notes[i], k)
    ensures Resolves(notes, k, notes[i].id)
  {
    NamedIsThere(notes, k);
    var n := LastNamed(notes, k).value;
    var j :| 0 <= j < |notes| && notes[j] == n;
  }

  // In an accepted run nothing is pulled two ways: of reinforce, falsify and
  // dispute each note hears at most one, so loop order never picks a winner.
  lemma NoNoteIsPulledTwoWays(notes: seq<Note>, o: Options, i: nat, a: Op, b: Op)
    requires Unambiguous(notes) && Accepted(notes, o) && i < |notes|
    requires Asked(notes, o, a, notes[i]) && Asked(notes, o, b, notes[i])
    ensures a == b
  {
    var n := notes[i];
    forall op | Asked(notes, o, op, n) ensures Touches(notes, o, op, n.id) {
      var k := if n.id in KeysOf(o, op) then n.id else n.path;
      assert k in KeysOf(o, op);
      KeysResolveToTheirNote(notes, i, k);
    }
    assert !Contradicts(notes, o, n.id);
  }

  predicate DistinctIds(notes: seq<Note>) {
    forall i, j | 0 <= i < |notes| && 0 <= j < |notes| && notes[i].id == notes[j].id :: i == j
  }

  // And nothing else is refused: where ids are distinct, a run whose keys are all
  // known is accepted exactly when no note hears two of the three.
  lemma AcceptedIff(notes: seq<Note>, o: Options)
    requires Unambiguous(notes) && DistinctIds(notes)
    ensures Accepted(notes, o) <==>
            && AllKnown(notes, o)
            && forall i, a, b | 0 <= i < |notes| && Asked(notes, o, a, notes[i]) && Asked(notes, o, b, notes[i]) :: a == b
  {
    if Accepted(notes, o) {
      forall i, a, b | 0 <= i < |notes| && Asked(notes, o, a, notes[i]) && Asked(notes, o, b, notes[i]) ensures a == b {
        NoNoteIsPulledTwoWays(notes, o, i, a, b);
      }
    } else if AllKnown(notes, o) {
      var id :| Contradicts(notes, o, id);
      var a, b :| a != b && Touches(notes, o, a, id) && Touches(notes, o, b, id);
      var i := TouchedIsAsked(notes, o, a, id);
      var j := TouchedIsAsked(notes, o, b, id);
      assert i == j;
    }
  }

  lemma TouchedIsAsked(notes: seq<Note>, o: Options, op: Op, id: string) returns (i: nat)
    requires Touches(notes, o, op, id)
    ensures i < |notes| && notes[i].id == id && Asked(notes, o, op, notes[i])
  {
    var k :| k in KeysOf(o, op) && Resolves(notes, k, id);
    NamedIsThere(notes, k);
    i :| 0 <= i < |notes| && notes[i] == LastNamed(notes, k).value;
  }

  // Of two keys that name one note, its id speaks for it.
  predicate Speaks<V>(m: map<string, V>, n: Note, k: string) { k in m && (k == n.id || n.id !in m) }

  // The replacement is written as a link to the note its key names.
  predicate LinksTo(notes: seq<Note>, key: string, text: Option<string>) {
    exists i | 0 <= i < |notes| :: Names(notes[i], key) && text == Some("[[" + Base(notes[i].path) + "]]")
  }

  // Each list a key stands in is heard by the note it names, with the reason or
  // the replacement given there.
  predicate Hears(notes: seq<Note>, o: Options, n: Note, k: string) {
    var a := AskOf(notes, o, n);
    && (k in o.reinforce ==> a.reinforce) && (k in o.graduate ==> a.graduate)
    && (k in o.falsify ==> a.falsify.Some?) && (Speaks(o.falsify, n, k) ==> a.falsify == Some(o.falsify[k]))
    && (k in o.dispute ==> a.dispute.Some?) && (Speaks(o.dispute, n, k) ==> a.dispute == Some(o.dispute[k]))
    && (k in o.supersede ==> a.supersede.Some? && a.falsify.Some?)
    && (Speaks(o.supersede, n, k) ==> LinksTo(notes, o.supersede[k], a.supersede))
  }

  // And nothing accepted falls on deaf ears: every key, of every list, names a
  // live note that is asked for it.
  lemma EveryKeyReachesANote(notes: seq<Note>, o: Options, k: string)
    requires Accepted(notes, o)
    requires k in o.reinforce + o.graduate + o.falsify.Keys + o.dispute.Keys + o.supersede.Keys
    ensures exists i | 0 <= i < |notes| :: IsLive(notes[i]) && Names(notes[i], k) && Hears(notes, o, notes[i], k)
  {
    assert k in o.supersede ==> k in o.falsify;
    assert Live(notes, k);
    var i :| 0 <= i < |notes| && IsLive(notes[i]) && Names(notes[i], k);
    if k in o.supersede {
      NamedIsThere(notes, o.supersede[k]);
    }
    assert Hears(notes, o, notes[i], k);
  }

  // And a note is asked only what some key that names it asks.
  lemma NothingIsMadeUp(notes: seq<Note>, o: Options, n: Note)
    ensures var a := AskOf(notes, o, n);
            && (a.reinforce ==> exists k :: k in o.reinforce && Names(n, k))
            && (a.graduate ==> exists k :: k in o.graduate && Names(n, k))
            && (a.falsify.Some? ==> exists k :: k in o.falsify && Names(n, k) && a.falsify == Some(o.falsify[k]))
            && (a.dispute.Some? ==> exists k :: k in o.dispute && Names(n, k) && a.dispute == Some(o.dispute[k]))
            && (a.supersede.Some? ==> exists k :: k in o.supersede && Names(n, k))
  {
  }

  predicate Compatible(ask: Ask) {
    && !(ask.reinforce && ask.falsify.Some?) && !(ask.reinforce && ask.dispute.Some?)
    && !(ask.falsify.Some? && ask.dispute.Some?)
  }

  // A turn that runs to its end with its writes landed has done what was asked,
  // and only that. Graduation alone can go unheard: on a note this run also
  // falsifies, disputes or archives it is dropped without a word.
  lemma EveryRequestIsAnswered(n: Note, ask: Ask, cited: bool, advised: bool, now: Time)
    requires IsLive(n) && Compatible(ask)
    ensures var t := Compile(n, ask, cited, advised, now, false, Landed, Landed);
            var v := Judge(n, ask.reinforce, cited, now);
            t.Turn? ==>
              && (KFalsified in t.actions <==> ask.falsify.Some?)
              && (KDisputed in t.actions <==> ask.dispute.Some?)
              && (KReinforced in t.actions <==> ask.reinforce)
              && (KGraduated in t.actions <==>
                    ask.graduate && ask.falsify.None? && ask.dispute.None? && !v.faded && !v.ancient)
  {
    if Laws.Judged(n, ask) {
      var v := Judge(n, ask.reinforce, cited, now);
      var moves := Movements(n, v, ask.reinforce);
      Laws.CompileCarries(n, ask, cited, advised, now, false, Landed, Landed);
      Laws.MovementsArePlain(n, v, ask.reinforce);
      CarryAnswers(n, v, Laws.Next(n, ask, cited, now), moves, ask.graduate, advised, now);
    }
  }

  lemma CarryAnswers(n: Note, v: Verdict, staged: Note, moves: seq<Kind>, graduate: bool, advised: bool, now: Time)
    requires Laws.Plain(moves)
    ensures var t := Carry(n, v, staged, moves, graduate, advised, now, false, Landed, Landed);
            t.Turn? ==>
              && KFalsified !in t.actions && KDisputed !in t.actions
              && (KReinforced in t.actions <==> KReinforced in moves)
              && (KGraduated in t.actions <==> graduate && !v.faded && !v.ancient)
  {
  }

  // ---- recentCitations ----

  datatype Ref = Ref(name: string, wikilink: bool)
  datatype Doc = Doc(id: string, path: string, updated: Option<Time>, refs: seq<Ref>)

  function FirstWith(docs: seq<Doc>, name: string): Option<string> {
    if docs == [] then None
    else if Base(docs[0].path) == name then Some(docs[0].id)
    else FirstWith(docs[1..], name)
  }

  predicate Recent(m: Doc, now: Time) { m.updated.Some? && now - m.updated.value <= REFRESH_WITHIN }

  predicate CitedBy(docs: seq<Doc>, m: Doc, now: Time, id: string, r: nat) {
    && Recent(m, now) && r < |m.refs|
    && m.refs[r].wikilink && FirstWith(docs, m.refs[r].name) == Some(id) && id != m.id
  }

  // A body wikilink from another, recently updated note; never provenance,
  // never itself.
  predicate Cited(docs: seq<Doc>, now: Time, id: string) {
    exists i, r | 0 <= i < |docs| && 0 <= r < |docs[i].refs| :: CitedBy(docs, docs[i], now, id, r)
  }

  lemma {:induction false} FirstWithAppend(docs: seq<Doc>, d: Doc, name: string)
    ensures FirstWith(docs + [d], name) ==
            if FirstWith(docs, name).Some? then FirstWith(docs, name)
            else if Base(d.path) == name then Some(d.id) else None
  {
    if docs == [] {
      assert docs + [d] == [d];
    } else {
      assert (docs + [d])[1..] == docs[1..] + [d];
      FirstWithAppend(docs[1..], d, name);
    }
  }

  method IdByName(docs: seq<Doc>) returns (ids: map<string, string>)
    ensures forall name :: (if name in ids then Some(ids[name]) else None) == FirstWith(docs, name)
  {
    ids := map[];
    for i := 0 to |docs|
      invariant forall name :: (if name in ids then Some(ids[name]) else None) == FirstWith(docs[..i], name)
    {
      forall name {
        FirstWithAppend(docs[..i], docs[i], name);
      }
      assert docs[..i + 1] == docs[..i] + [docs[i]];
      if Base(docs[i].path) !in ids {
        ids := ids[Base(docs[i].path) := docs[i].id];
      }
    }
    assert docs[..|docs|] == docs;
  }

  method RecentCitations(docs: seq<Doc>, now: Time) returns (cited: set<string>)
    ensures forall id :: id in cited <==> Cited(docs, now, id)
  {
    var ids := IdByName(docs);
    cited := {};
    for i := 0 to |docs|
      invariant forall id :: id in cited <==>
        exists j, r | 0 <= j < i && 0 <= r < |docs[j].refs| :: CitedBy(docs, docs[j], now, id, r)
    {
      var m := docs[i];
      if Recent(m, now) {
        ghost var before := cited;
        for r := 0 to |m.refs|
          invariant forall id :: id in cited <==> id in before || exists q | 0 <= q < r :: CitedBy(docs, m, now, id, q)
        {
          ghost var sofar := cited;
          var ref := m.refs[r];
          assert (if ref.name in ids then Some(ids[ref.name]) else None) == FirstWith(docs, ref.name);
          assert forall id :: CitedBy(docs, m, now, id, r) <==>
            ref.wikilink && ref.name in ids && ids[ref.name] == id && id != m.id;
          if ref.wikilink && ref.name in ids && ids[ref.name] != m.id {
            cited := cited + {ids[ref.name]};
          }
          forall id ensures id in cited <==> id in before || exists q | 0 <= q < r + 1 :: CitedBy(docs, m, now, id, q) {
            assert id in cited <==> id in sofar || CitedBy(docs, m, now, id, r);
          }
        }
      }
    }
  }
}
