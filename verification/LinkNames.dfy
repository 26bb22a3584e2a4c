// What a reference may look like and still mean a note: delimiters, an alias,
// an anchor and space around the name change nothing.
module LinkNames {
  import opened LinkGraph
  import opened LinkText
  import opened Spacing
  import opened Text

  predicate Marks(c: char) { c == '[' || c == ']' || c == '|' || c == '#' }

  // A name as it stands in a reference: no delimiter in it, no space around it.
  predicate Plain(name: string) {
    name != "" && Tight(name) && forall i | 0 <= i < |name| :: !Marks(name[i])
  }

  // Nothing, or an alias or anchor with any text.
  predicate Tail(s: string) { s == "" || s[0] == '|' || s[0] == '#' }

  // What may stand before a name, and after it: delimiters, an alias or anchor,
  // and space at will.
  predicate Opens(a: string, open: string, b: string) { Blanks(a) && Blanks(b) && open in {"", "[["} }

  predicate Closes(c: string, tail: string, close: string, d: string) {
    Blanks(c) && Tail(tail) && Blanks(d) && close in {"", "]]"}
  }

  ghost predicate Before(front: string) { exists a, open, b :: Opens(a, open, b) && front == a + open + b }

  ghost predicate After(back: string) {
    exists c, tail, close, d :: Closes(c, tail, close, d) && back == c + tail + close + d
  }

  ghost predicate Refers(raw: string, name: string) {
    exists front, back :: Before(front) && After(back) && raw == front + name + back
  }

  lemma {:induction false} CutIs(s: string, tail: string)
    requires Tail(tail) && forall i | 0 <= i < |s| :: s[i] != '|' && s[i] != '#'
    ensures CutAnchor(s + tail) == s
  {
    if s == "" {
      assert s + tail == tail;
    } else {
      assert (s + tail)[0] == s[0] && (s + tail)[1..] == s[1..] + tail;
      CutIs(s[1..], tail);
    }
  }

  lemma BlanksHaveNoMarks(s: string)
    requires Blanks(s)
    ensures forall i | 0 <= i < |s| :: !Marks(s[i])
  {
    forall i | 0 <= i < |s| ensures !Marks(s[i]) {
      assert IsSpace(s[i]);
    }
  }

  lemma FrontOff(open: string, rest: string)
    requires open in {"", "[["} && rest != "" && (open == "" ==> rest[0] != '[')
    ensures var s := open + rest; (if "[[" <= s then s[2..] else s) == rest
  {
    if open == "" {
      assert open + rest == rest;
    } else {
      assert (open + rest)[2..] == rest;
    }
  }

  // The closing delimiter goes; one inside an alias that is not closed itself
  // takes only alias with it.
  lemma BackOff(core: string, tail: string, close: string) returns (tail': string)
    requires core != "" && !Marks(core[|core| - 1]) && Tail(tail) && close in {"", "]]"}
    ensures Tail(tail')
    ensures var t := core + tail + close;
            (if |t| >= 2 && t[|t| - 2..] == "]]" then t[..|t| - 2] else t) == core + tail'
  {
    var t := core + tail + close;
    if close == "]]" {
      assert t[..|t| - 2] == core + tail;
      tail' := tail;
    } else if |t| >= 2 && t[|t| - 2..] == "]]" {
      assert t[|t| - 1] == t[|t| - 2..][1] == ']' && t[|t| - 2] == t[|t| - 2..][0] == ']';
      assert |tail| > 2;
      tail' := tail[..|tail| - 2];
      assert t[..|t| - 2] == core + tail';
    } else {
      assert t == core + tail;
      tail' := tail;
    }
  }

  // What cleanName does to a text between two delimiters.
  lemma CleanIsCore(raw: string, open: string, core: string, tail: string, close: string)
    requires Trim(raw) == open + (core + tail + close) && open in {"", "[["} && close in {"", "]]"} && Tail(tail)
    requires core != "" && forall i | 0 <= i < |core| :: !Marks(core[i])
    ensures CleanName(raw) == Trim(core)
  {
    hide CleanName, Trim, CutAnchor;
    var rest := core + tail + close;
    assert rest[0] == core[0] != '[';
    hide Marks;
    FrontOff(open, rest);
    var tail' := BackOff(core, tail, close);
    NoMarkCuts(core);
    CutIs(core, tail');
    CleanUnfolds(raw, rest, core + tail');
  }

  lemma NoMarkCuts(core: string)
    requires forall i | 0 <= i < |core| :: !Marks(core[i])
    ensures forall i | 0 <= i < |core| :: core[i] != '|' && core[i] != '#'
  {
  }

  lemma CleanUnfolds(raw: string, t: string, u: string)
    requires t == var s := Trim(raw); if "[[" <= s then s[2..] else s
    requires u == if |t| >= 2 && t[|t| - 2..] == "]]" then t[..|t| - 2] else t
    ensures CleanName(raw) == Trim(CutAnchor(u))
  {
    hide Trim, CutAnchor;
  }

  lemma {:induction false} KeepsFront(s: string)
    requires s != "" && !IsSpace(s[0])
    ensures TrimRight(s) != "" && TrimRight(s)[0] == s[0]
  {
    if IsSpace(s[|s| - 1]) {
      KeepsFront(s[..|s| - 1]);
    }
  }

  // Space around what is left after trimming.
  lemma Trimmed(tail: string) returns (tail': string, w: string)
    requires Tail(tail) && tail != ""
    ensures Tail(tail') && tail' != "" && tail == tail' + w && Blanks(w) && !IsSpace(tail'[|tail'| - 1])
  {
    w := RightSplits(tail);
    tail' := TrimRight(tail);
    KeepsFront(tail);
  }

  // Space goes to the nearest end, or stays inside the delimiters.
  lemma SplitFront(a: string, open: string, b: string) returns (a': string, b': string)
    requires Blanks(a) && Blanks(b)
    ensures Blanks(a') && Blanks(b') && a + open + b == a' + open + b' && (open == "" ==> b' == "")
  {
    if open == "" {
      a', b' := a + b, "";
    } else {
      a', b' := a, b;
    }
  }

  lemma SplitBack(c: string, tail: string, close: string, d: string) returns (c': string, tail': string, d': string)
    requires Blanks(c) && Tail(tail) && Blanks(d)
    ensures Blanks(c') && Tail(tail') && Blanks(d') && c + tail + close + d == c' + tail' + close + d'
    ensures close == "" ==> if tail' == "" then c' == "" else !IsSpace(tail'[|tail'| - 1])
  {
    c', tail', d' := c, tail, d;
    if close == "" && tail == "" {
      c', d' := "", c + d;
    } else if close == "" {
      var w;
      tail', w := Trimmed(tail);
      d' := w + d;
    }
  }

  // However it is spelled, a reference comes down to its name.
  lemma SpellingIsIgnored(a: string, open: string, b: string, name: string, c: string, tail: string, close: string, d: string)
    requires Plain(name) && Opens(a, open, b) && Closes(c, tail, close, d)
    ensures CleanName(a + open + b + name + c + tail + close + d) == name
  {
    var a', b' := SplitFront(a, open, b);
    var c', tail', d' := SplitBack(c, tail, close, d);
    hide Trim, CleanName;
    var core := b' + name + c';
    SameText(a, open, b, name, c, tail, close, d, a', b', c', tail', d');
    BlanksHaveNoMarks(b');
    BlanksHaveNoMarks(c');
    TightText(open, core, tail', close, name, b', c');
    TrimIs(a', open + (core + tail' + close), d');
    CleanIsCore(a + open + b + name + c + tail + close + d, open, core, tail', close);
    TrimIs(b', name, c');
  }

  lemma SameText(a: string, open: string, b: string, name: string, c: string, tail: string, close: string, d: string,
                 a': string, b': string, c': string, tail': string, d': string)
    requires a + open + b == a' + open + b' && c + tail + close + d == c' + tail' + close + d'
    ensures a + open + b + name + c + tail + close + d == a' + (open + (b' + name + c' + tail' + close)) + d'
  {
    var l, r := a + open + b, c + tail + close + d;
    assert a + open + b + name + c + tail + close + d == l + name + r;
    assert a' + (open + (b' + name + c' + tail' + close)) + d' == (a' + open + b') + name + (c' + tail' + close + d');
  }

  lemma TightText(open: string, core: string, tail: string, close: string, name: string, b: string, c: string)
    requires core == b + name + c && Plain(name) && open in {"", "[["} && close in {"", "]]"}
    requires open == "" ==> b == ""
    requires close == "" ==> if tail == "" then c == "" else !IsSpace(tail[|tail| - 1])
    ensures Tight(open + (core + tail + close))
  {
    var s := open + (core + tail + close);
    assert s[0] == if open == "" then name[0] else '[';
    assert s[|s| - 1] == if close != "" then ']' else if tail != "" then tail[|tail| - 1] else name[|name| - 1];
  }

  // A reference as written: a `sources` entry, or what stands between double
  // brackets in the body.
  ghost predicate Written(row: Row, raw: string) {
    raw in row.sources || (IsName(raw) && Occurs(row.body, Bracketed(raw)))
  }

  lemma FirstIsResolved(rows: map<Path, Row>, key: string, dst: Id)
    ensures forall p | IsFirst(rows, p, key) :: p in rows
    ensures Resolve(rows, key) == Some(dst) <==> exists p :: IsFirst(rows, p, key) && rows[p].id == dst
  {
    if p :| IsFirst(rows, p, key) && rows[p].id == dst {
      var q :| IsFirst(rows, q, key) && Some(rows[q].id) == Resolve(rows, key);
      FirstIsUnique(rows, p, q, key);
    }
  }

  // What the note writes means the note at p.
  ghost predicate Means(rows: map<Path, Row>, row: Row, raw: string, p: Path) {
    p in rows && Written(row, raw) && CleanName(raw) != "" && IsFirst(rows, p, CleanName(raw))
  }

  // A note's edges are to the notes it means, itself left out.
  lemma EdgesAre(rows: map<Path, Row>, row: Row, dst: Id)
    ensures dst in Want(rows, row) <==> dst != row.id && exists raw, p :: Means(rows, row, raw, p) && rows[p].id == dst
  {
    hide CleanName, Resolve, IsFirst;
    forall raw ensures raw in row.sources + Wikilinks(row.body) <==> Written(row, raw) {
      WikilinksAre(row.body, raw);
    }
    if dst in Want(rows, row) {
      var key :| key in Keys(row) && Resolve(rows, key) == Some(dst);
      var raw :| raw in row.sources + Wikilinks(row.body) && CleanName(raw) == key && key != "";
      FirstIsResolved(rows, key, dst);
      var p :| IsFirst(rows, p, key) && rows[p].id == dst;
      assert Means(rows, row, raw, p);
    }
    if raw, p :| Means(rows, row, raw, p) && rows[p].id == dst && dst != row.id {
      FirstIsResolved(rows, CleanName(raw), dst);
      assert raw in row.sources + Wikilinks(row.body);
      assert CleanName(raw) in Keys(row);
    }
  }

  // End to end: whatever alias, anchor, delimiters or space it is written with,
  // a reference to a name gives an edge to the first note of that name, once
  // the note is indexed, unless that is the note itself.
  lemma ReferenceLinks(ix: Ix, n: Note, raw: string, name: string, p: Path)
    requires Written(n.row, raw) && Refers(raw, name) && Plain(name) && IsFirst(ix.rows, p, name)
    ensures var dst := ix.rows[p].id;
            && (dst in Want(ix.rows, n.row) <==> dst != n.row.id)
            && (IndexNote(ix, n).Some? && dst != n.row.id ==> (n.row.id, dst) in IndexNote(ix, n).value.links)
  {
    RefersIsClean(raw, name);
    assert Means(ix.rows, n.row, raw, p);
    EdgesAre(ix.rows, n.row, ix.rows[p].id);
    hide Want, CleanName, Written, Refers, Plain, IsFirst;
  }

  lemma RefersIsClean(raw: string, name: string)
    requires Refers(raw, name) && Plain(name)
    ensures CleanName(raw) == name
  {
    hide CleanName, Plain, Opens, Closes;
    var front, back :| Before(front) && After(back) && raw == front + name + back;
    var a, open, b :| Opens(a, open, b) && front == a + open + b;
    var c, tail, close, d :| Closes(c, tail, close, d) && back == c + tail + close + d;
    SpellingIsIgnored(a, open, b, name, c, tail, close, d);
    assert raw == a + open + b + name + c + tail + close + d;
  }

  // A name without a colon means the notes of that basename, one with a project
  // in front of it only those of the project.
  lemma QualifiersAre(p: Path, row: Row, name: string, project: string)
    requires ':' !in name && ':' !in project
    ensures Hits(p, row, name) <==> Base(p) == name
    ensures ':' !in row.project ==>
              (Hits(p, row, project + ":" + name) <==> project != "" && row.project == project && Base(p) == name)
  {
    var key := project + ":" + name;
    assert key[|project|] == ':' && ':' in key;
    if ':' !in row.project && row.project + ":" + Base(p) == key {
      FirstColon(row.project, Base(p), project, name);
    }
  }

  lemma FirstColon(a: string, x: string, b: string, y: string)
    requires ':' !in a && ':' !in b && a + ":" + x == b + ":" + y
    ensures a == b && x == y
  {
    ColonAt(a, x);
    ColonAt(b, y);
    var s := a + ":" + x;
    assert s[..|a|] == a && s[..|b|] == b && s[|a| + 1..] == x && s[|b| + 1..] == y;
  }

  lemma ColonAt(a: string, x: string)
    requires ':' !in a
    ensures Index(a + ":" + x, ":") == Some(|a|)
  {
    var s := a + ":" + x;
    AtChar(s, ':', |a|);
    forall j: nat | j < |a| ensures !At(s, ":", j) {
      AtChar(s, ':', j);
      assert s[j] == a[j] && a[j] in a;
    }
    IndexIs(s, ":", |a|);
  }
}
