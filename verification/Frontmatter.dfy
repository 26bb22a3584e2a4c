// The frontmatter fence: splitting and serializing, and the textual splice that
// gives a note the id its author left out.
module Frontmatter {
  import opened Spacing
  import opened Text

  const FENCE := "---\n"
  const CLOSE := "\n---\n"
  const MARK := "\n---"

  datatype Parts = Parts(fm: string, body: string, hasFM: bool)

  // Past the opening fence: up to the first closing one, or to a final one with
  // nothing after it.
  function SplitRest(rest: string): Option<(string, string)> {
    match Index(rest, CLOSE)
    case Some(end) => Some((rest[..end], rest[end + 5..]))
    case None => if |rest| >= 4 && rest[|rest| - 4..] == MARK then Some((rest[..|rest| - 4], "")) else None
  }

  function SplitFrontmatter(content: string): Parts {
    if !(FENCE <= content) then Parts("", content, false)
    else match SplitRest(content[4..])
         case Some(p) => Parts(p.0, p.1, true)
         case None => Parts("", content, false)
  }

  // A block is found exactly when the text opens with the fence and a bare fence
  // line, or a fence that ends the text, closes it; the first such closes it.
  // Everything else is body, and a text without a block is nothing but body.
  ghost predicate Encloses(content: string, fm: string, body: string) {
    && (content == FENCE + fm + CLOSE + body || (content == FENCE + fm + MARK && body == ""))
    && forall j: nat | j < |fm| :: !At(content[4..], CLOSE, j)
  }

  lemma SplitIs(content: string)
    ensures var p := SplitFrontmatter(content);
            && (p.hasFM ==> Encloses(content, p.fm, p.body))
            && (!p.hasFM ==> p == Parts("", content, false) && forall fm, body :: !Encloses(content, fm, body))
  {
    if FENCE <= content {
      var rest := content[4..];
      assert content == FENCE + rest;
      SplitEncloses(rest);
      hide SplitRest, Encloses;
      forall fm, body | Encloses(content, fm, body) ensures SplitFrontmatter(content).hasFM {
        EnclosedIsSeen(rest, fm, body);
      }
    } else {
      forall fm, body ensures !Encloses(content, fm, body) {
        EnclosedOpens(content, fm, body);
      }
    }
  }

  lemma EnclosedOpens(content: string, fm: string, body: string)
    ensures Encloses(content, fm, body) ==> FENCE <= content
  {
    assert FENCE <= FENCE + fm + CLOSE + body && FENCE <= FENCE + fm + MARK;
  }

  lemma SplitEncloses(rest: string)
    ensures SplitRest(rest).Some? ==> Encloses(FENCE + rest, SplitRest(rest).value.0, SplitRest(rest).value.1)
  {
    assert (FENCE + rest)[4..] == rest;
    match Index(rest, CLOSE)
    case Some(end) =>
      assert rest == rest[..end] + rest[end..end + 5] + rest[end + 5..];
      assert FENCE + rest == FENCE + rest[..end] + CLOSE + rest[end + 5..];
    case None =>
      if |rest| >= 4 && rest[|rest| - 4..] == MARK {
        assert rest == rest[..|rest| - 4] + MARK;
        assert FENCE + rest == FENCE + rest[..|rest| - 4] + MARK;
      }
  }

  lemma EnclosedIsSeen(rest: string, fm: string, body: string)
    requires Encloses(FENCE + rest, fm, body)
    ensures SplitRest(rest).Some?
  {
    assert (FENCE + rest)[4..] == rest;
    if FENCE + rest == FENCE + fm + CLOSE + body {
      assert (FENCE + fm + CLOSE + body)[4..] == fm + CLOSE + body;
      assert rest[|fm|..|fm| + 5] == CLOSE;
      assert At(rest, CLOSE, |fm|);
    } else {
      assert (FENCE + fm + MARK)[4..] == fm + MARK;
      assert rest[|rest| - 4..] == MARK;
    }
  }

  // The YAML marshaller's text always ends its last line.
  function Serialize(fm: string, body: string): string { FENCE + (fm + "\n") + FENCE + body }

  function Lines(s: string): seq<string> { Split(s, "\n") }

  // ---- lines and occurrences ----

  // What `pat` says of a line: that it starts so, or (when whole) that it is so.
  predicate Opens(line: string, pat: string, whole: bool) {
    if whole then line == pat else pat <= line
  }

  // `pat` at the start of a line other than the first, or filling it.
  predicate OpensAt(s: string, pat: string, whole: bool, j: nat) {
    && At(s, "\n" + pat, j)
    && (whole ==> j + 1 + |pat| == |s| || s[j + 1 + |pat|] == '\n')
  }

  lemma FirstLine(s: string, pat: string, whole: bool)
    requires '\n' !in pat
    ensures Opens(Lines(s)[0], pat, whole) <==>
            pat <= s && (whole ==> |pat| == |s| || s[|pat|] == '\n')
  {
    var first := Lines(s)[0];
    assert first <= s;
    match Index(s, "\n")
    case None =>
      forall j: nat | j < |s| ensures s[j] != '\n' { AtChar(s, '\n', j); }
    case Some(i) =>
      AtChar(s, '\n', i);
      forall j: nat | j < i ensures s[j] != '\n' { AtChar(s, '\n', j); }
      assert pat <= s ==> forall m | 0 <= m < |pat| :: s[m] == pat[m] && pat[m] in pat;
  }

  // A later line opens with pat exactly when "\n" + pat occurs.
  lemma {:induction false} LaterLine(s: string, pat: string, whole: bool, k: nat) returns (j: nat)
    requires '\n' !in pat && 0 < k < |Lines(s)| && Opens(Lines(s)[k], pat, whole)
    ensures OpensAt(s, pat, whole, j)
    decreases |s|
  {
    hide IndexFrom;
    assert Index(s, "\n").Some?;
    var i := Index(s, "\n").value;
    var rest := s[i + 1..];
    AtChar(s, '\n', i);
    assert Lines(s) == [s[..i]] + Lines(rest);
    assert Lines(s)[k] == Lines(rest)[k - 1];
    if k == 1 {
      FirstLine(rest, pat, whole);
      OccursAtBreak(s, pat, i);
      j := i;
    } else {
      var m := LaterLine(rest, pat, whole, k - 1);
      j := i + 1 + m;
      OccursInRest(s, pat, i + 1, m);
    }
  }

  lemma OccursAtBreak(s: string, pat: string, i: nat)
    requires i < |s| && s[i] == '\n' && pat <= s[i + 1..]
    ensures At(s, "\n" + pat, i)
  {
    assert s[i..i + 1 + |pat|] == [s[i]] + s[i + 1..][..|pat|];
  }

  lemma OccursInRest(s: string, pat: string, i: nat, m: nat)
    requires i <= |s|
    ensures At(s, "\n" + pat, i + m) <==> At(s[i..], "\n" + pat, m)
  {
    if i + m + 1 + |pat| <= |s| {
      assert s[i + m..i + m + 1 + |pat|] == s[i..][m..m + 1 + |pat|];
    }
  }

  lemma {:induction false} LineOfOccurrence(s: string, pat: string, whole: bool, j: nat) returns (k: nat)
    requires '\n' !in pat && OpensAt(s, pat, whole, j)
    ensures 0 < k < |Lines(s)| && Opens(Lines(s)[k], pat, whole)
    decreases |s|
  {
    hide IndexFrom;
    assert s[j] == s[j..j + 1 + |pat|][0] == '\n';
    AtChar(s, '\n', j);
    var i := Index(s, "\n").value;
    var rest := s[i + 1..];
    assert Lines(s) == [s[..i]] + Lines(rest);
    if i == j {
      assert rest[..|pat|] == s[j..j + 1 + |pat|][1..];
      FirstLine(rest, pat, whole);
      k := 1;
    } else {
      OccursInRest(s, pat, i + 1, j - i - 1);
      var k' := LineOfOccurrence(rest, pat, whole, j - i - 1);
      k := k' + 1;
    }
  }

  // ---- round trip ----

  predicate BareFence(lines: seq<string>, k: nat) { 0 < k < |lines| && lines[k] == "---" }

  // Serializing and splitting gives back the same block and body, for every
  // body, exactly when no line of the block after the first is a bare fence.
  lemma RoundTripIff(fm: string, body: string)
    ensures SplitFrontmatter(Serialize(fm, body)) == Parts(fm, body, true) <==>
            forall k | 0 < k < |Lines(fm)| :: !BareFence(Lines(fm), k)
  {
    var content := Serialize(fm, body);
    var rest := content[4..];
    assert rest == fm + CLOSE + body;
    assert rest[|fm|..|fm| + 5] == CLOSE;
    assert At(rest, CLOSE, |fm|);
    if k :| 0 < k < |Lines(fm)| && BareFence(Lines(fm), k) {
      var j := LaterLine(fm, "---", true, k);
      assert fm + CLOSE + body == fm + (CLOSE + body);
      EarlyClose(fm, CLOSE + body, j);
      assert Index(rest, CLOSE).value <= j;
    } else {
      forall j: nat | j < |fm| ensures !At(rest, CLOSE, j) {
        if At(rest, CLOSE, j) {
          assert fm + CLOSE + body == fm + (CLOSE + body);
          CloseIsALine(fm, CLOSE + body, j);
          var k := LineOfOccurrence(fm, "---", true, j);
          assert BareFence(Lines(fm), k);
        }
      }
      IndexIs(rest, CLOSE, |fm|);
    }
  }

  // A bare fence line inside a block closes it early, and only that does.
  lemma EarlyClose(fm: string, remainder: string, j: nat)
    requires OpensAt(fm, "---", true, j) && MARK <= remainder
    ensures j < |fm| && At(fm + remainder, CLOSE, j)
  {
    var rest := fm + remainder;
    assert rest[j..j + 4] == fm[j..j + 4] == MARK;
    assert rest[j + 4] == '\n';
    assert rest[j..j + 5] == rest[j..j + 4] + [rest[j + 4]];
  }

  lemma CloseIsALine(fm: string, remainder: string, j: nat)
    requires j < |fm| && MARK <= remainder && At(fm + remainder, CLOSE, j)
    ensures OpensAt(fm, "---", true, j)
  {
    var rest := fm + remainder;
    var c := rest[j..j + 5];
    assert forall i | 0 <= i < 5 :: rest[j + i] == c[i] == CLOSE[i];
    assert rest[|fm|] == remainder[0] == '\n';
    assert rest[j + 1] == '-' && rest[j + 2] == '-' && rest[j + 3] == '-';
    assert j + 4 <= |fm|;
    assert fm[j..j + 4] == rest[j..j + 4] == c[..4] == CLOSE[..4] == MARK;
    assert j + 4 < |fm| ==> fm[j + 4] == rest[j + 4] == CLOSE[4];
  }

  // ---- the id line ----

  datatype IdKind = Absent | BlankId | Malformed

  predicate IsIdLine(l: string) { "id:" <= l }

  function CutComment(s: string): string {
    if s == [] || s[0] == '#' then "" else [s[0]] + CutComment(s[1..])
  }

  function KindOf(l: string): IdKind {
    if !IsIdLine(l) then Absent
    else if Trim(CutComment(l[3..])) in {"", "\"\"", "''", "null", "Null", "NULL", "~"} then BlankId
    else Malformed
  }

  // What YAML reads as no value.
  const NO_VALUES: set<string> := {"", "\"\"", "''", "null", "Null", "NULL", "~"}

  // The key, then a value in space, then perhaps a comment.
  predicate Spells(l: string, a: string, value: string, b: string, comment: string) {
    && l == "id:" + a + value + b + comment
    && Blanks(a) && Blanks(b) && (comment == "" || comment[0] == '#')
  }

  lemma {:induction false} CutIs(s: string, comment: string)
    requires (forall i | 0 <= i < |s| :: s[i] != '#') && (comment == "" || comment[0] == '#')
    ensures CutComment(s + comment) == s
  {
    if s == "" {
      assert s + comment == comment;
    } else {
      assert (s + comment)[0] == s[0] && (s + comment)[1..] == s[1..] + comment;
      CutIs(s[1..], comment);
    }
  }

  lemma {:induction false} CutSplits(s: string) returns (comment: string)
    ensures s == CutComment(s) + comment && (comment == "" || comment[0] == '#')
  {
    if s == "" || s[0] == '#' {
      comment := s;
    } else {
      comment := CutSplits(s[1..]);
      assert s == [s[0]] + s[1..];
    }
  }

  lemma NoHash(a: string, value: string, b: string)
    requires Blanks(a) && Blanks(b) && value in NO_VALUES
    ensures Tight(value) && forall i | 0 <= i < |a + value + b| :: (a + value + b)[i] != '#'
  {
    forall i | 0 <= i < |a + value + b| ensures (a + value + b)[i] != '#' {
      if i < |a| {
        assert IsSpace(a[i]);
      } else if i >= |a| + |value| {
        assert IsSpace(b[i - |a| - |value|]);
      }
    }
  }

  // An id line is blank exactly when nothing, an empty quotation or a YAML null
  // stands before its comment, spaced at will.
  lemma BlankIdIff(l: string)
    ensures KindOf(l) == BlankId <==> exists a, value, b, comment :: value in NO_VALUES && Spells(l, a, value, b, comment)
    ensures KindOf(l) == Absent <==> !("id:" <= l)
  {
    hide KindOf, Spells;
    BlankIsSpelled(l);
    if a, value, b, comment :| value in NO_VALUES && Spells(l, a, value, b, comment) {
      SpelledIsBlank(l, a, value, b, comment);
    }
    AbsentIff(l);
  }

  lemma AbsentIff(l: string)
    ensures KindOf(l) == Absent <==> !("id:" <= l)
  {
  }

  lemma BlankIsSpelled(l: string)
    ensures KindOf(l) == BlankId ==> exists a, value, b, comment :: value in NO_VALUES && Spells(l, a, value, b, comment)
  {
    if KindOf(l) == BlankId {
      var text := l[3..];
      var comment := CutSplits(text);
      var a, b := TrimSplits(CutComment(text));
      assert l == "id:" + text;
      assert Spells(l, a, Trim(CutComment(text)), b, comment);
    }
  }

  lemma SpelledIsBlank(l: string, a: string, value: string, b: string, comment: string)
    requires value in NO_VALUES && Spells(l, a, value, b, comment)
    ensures KindOf(l) == BlankId
  {
    NoHash(a, value, b);
    assert l[3..] == a + value + b + comment;
    CutIs(a + value + b, comment);
    TrimIs(a, value, b);
    hide CutComment, Trim;
  }

  // The first id line decides.
  function Classify(lines: seq<string>): IdKind {
    if lines == [] then Absent
    else if IsIdLine(lines[0]) then KindOf(lines[0])
    else Classify(lines[1..])
  }

  method ClassifyIdLine(fm: string) returns (kind: IdKind)
    ensures kind == Classify(Lines(fm))
  {
    var lines := Lines(fm);
    for i := 0 to |lines|
      invariant Classify(lines) == Classify(lines[i..])
    {
      assert lines[i..][1..] == lines[i + 1..];
      if IsIdLine(lines[i]) {
        return KindOf(lines[i]);
      }
    }
    kind := Absent;
  }

  // The frontmatter region of content past its opening fence, and what follows.
  function Region(after: string): string {
    match Index(after, MARK) case Some(end) => after[..end] case None => after
  }

  function Remainder(after: string): string {
    match Index(after, MARK) case Some(end) => after[end..] case None => ""
  }

  predicate IsBlankId(l: string) { KindOf(l) == BlankId }

  // Every line but blank ids, in order.
  function Kept(lines: seq<string>): seq<string> {
    if lines == [] then []
    else Kept(lines[..|lines| - 1]) + if IsBlankId(lines[|lines| - 1]) then [] else [lines[|lines| - 1]]
  }

  method DropBlankIdKey(after: string) returns (r: string)
    ensures r == if Index(after, MARK).None? then after else Join(Kept(Lines(Region(after))), "\n") + Remainder(after)
  {
    var end := Index(after, MARK);
    if end.None? {
      return after;
    }
    var lines := Lines(after[..end.value]);
    var out: seq<string> := [];
    for i := 0 to |lines|
      invariant out == Kept(lines[..i])
    {
      assert lines[..i + 1][..i] == lines[..i];
      if !IsBlankId(lines[i]) {
        out := out + [lines[i]];
      }
    }
    assert lines[..|lines|] == lines;
    r := Join(out, "\n") + after[end.value..];
  }

  function Spliced(id: string, after: string): string {
    "id: " + id + "\n"
    + if Classify(Lines(Region(after))) == BlankId && Index(after, MARK).Some?
      then Join(Kept(Lines(Region(after))), "\n") + Remainder(after)
      else after
  }

  function IdLines(lines: seq<string>): nat {
    if lines == [] then 0 else IdLines(lines[..|lines| - 1]) + if IsIdLine(lines[|lines| - 1]) then 1 else 0
  }

  lemma {:induction false} ClassifySeesIdLines(lines: seq<string>)
    ensures Classify(lines) == Absent <==> forall i | 0 <= i < |lines| :: !IsIdLine(lines[i])
    ensures Classify(lines) == BlankId ==> exists i | 0 <= i < |lines| :: IsBlankId(lines[i])
  {
    if lines != [] {
      ClassifySeesIdLines(lines[1..]);
      assert forall i | 0 < i < |lines| :: lines[i] == lines[1..][i - 1];
    }
  }

  lemma {:induction false} IdLinesNone(lines: seq<string>)
    ensures IdLines(lines) == 0 <==> forall i | 0 <= i < |lines| :: !IsIdLine(lines[i])
  {
    if lines != [] {
      IdLinesNone(lines[..|lines| - 1]);
    }
  }

  lemma BlankIsAnId(l: string)
    ensures IsBlankId(l) ==> IsIdLine(l)
  {
  }

  // Every line dropped is an id line.
  lemma {:induction false} IdLinesKept(lines: seq<string>)
    ensures IdLines(lines) == IdLines(Kept(lines)) + (|lines| - |Kept(lines)|)
  {
    hide IsBlankId, IsIdLine;
    if lines != [] {
      var init, last := lines[..|lines| - 1], lines[|lines| - 1];
      IdLinesKept(init);
      BlankIsAnId(last);
      IdLinesBack(Kept(init), last);
      assert Kept(lines) == if IsBlankId(last) then Kept(init) else Kept(init) + [last];
    }
  }

  lemma {:induction false} KeptIsAll(lines: seq<string>)
    ensures |Kept(lines)| <= |lines|
    ensures |Kept(lines)| == |lines| <==> forall i | 0 <= i < |lines| :: !IsBlankId(lines[i])
    ensures |Kept(lines)| == |lines| ==> Kept(lines) == lines
  {
    hide IsBlankId;
    if lines != [] {
      var init := lines[..|lines| - 1];
      KeptIsAll(init);
      assert lines == init + [lines[|lines| - 1]];
      assert forall i | 0 <= i < |init| :: init[i] == lines[i];
    }
  }

  lemma IdLinesBack(lines: seq<string>, l: string)
    ensures IdLines(lines + [l]) == IdLines(lines) + if IsIdLine(l) then 1 else 0
  {
    assert (lines + [l])[..|lines|] == lines;
  }

  lemma {:induction false} IdLinesFront(l: string, lines: seq<string>)
    ensures IdLines([l] + lines) == (if IsIdLine(l) then 1 else 0) + IdLines(lines)
  {
    if lines == [] {
      assert [l] + lines == [l] && [l][..0] == [];
    } else {
      IdLinesFront(l, lines[..|lines| - 1]);
      assert ([l] + lines)[..|lines|] == [l] + lines[..|lines| - 1];
    }
  }

  // ---- the splice, line by line ----

  // Emptied of its lines, a region still shows one empty line.
  function OrBlank(lines: seq<string>): seq<string> { if lines == [] then [""] else lines }

  // The lines of the region that stay.
  function Others(after: string): seq<string> { OrBlank(Kept(Lines(Region(after)))) }

  lemma LinesAreFree(s: string, l: string)
    requires l in Lines(s)
    ensures '\n' !in l
  {
    var k :| 0 <= k < |Lines(s)| && Lines(s)[k] == l;
    forall j: nat | j < |l| ensures l[j] != '\n' {
      SplitPartsAreFree(s, "\n", k, j);
      AtChar(l, '\n', j);
    }
  }

  lemma {:induction false} KeptAreLines(lines: seq<string>, i: nat) returns (k: nat)
    requires i < |Kept(lines)|
    ensures k < |lines| && lines[k] == Kept(lines)[i] && !IsBlankId(lines[k])
    ensures k >= i
  {
    var init := lines[..|lines| - 1];
    if i < |Kept(init)| {
      k := KeptAreLines(init, i);
    } else {
      KeptIsAll(init);
      k := |lines| - 1;
    }
  }

  // The region of a text built from lines none of which, past the first, opens
  // with the mark.
  lemma RegionOfLines(lines: seq<string>, remainder: string)
    requires lines != [] && MARK <= remainder
    requires forall l | l in lines :: '\n' !in l
    requires forall k | 0 < k < |lines| :: !("---" <= lines[k])
    ensures var text := Join(lines, "\n") + remainder;
            Region(text) == Join(lines, "\n") && Remainder(text) == remainder && Lines(Region(text)) == lines
  {
    var g := Join(lines, "\n");
    SplitJoin(lines, '\n');
    forall j: nat | j < |g| ensures !At(g + remainder, MARK, j) {
      NoEarlierMark(lines, remainder, j);
    }
    RegionIs(g, remainder);
  }

  lemma RegionIs(g: string, remainder: string)
    requires MARK <= remainder && forall j: nat | j < |g| :: !At(g + remainder, MARK, j)
    ensures Region(g + remainder) == g && Remainder(g + remainder) == remainder
  {
    hide IndexFrom;
    var text := g + remainder;
    assert text[|g|..|g| + 4] == remainder[..4];
    IndexIs(text, MARK, |g|);
  }

  lemma NoEarlierMark(lines: seq<string>, remainder: string, j: nat)
    requires MARK <= remainder && Lines(Join(lines, "\n")) == lines && j < |Join(lines, "\n")|
    requires forall k | 0 < k < |lines| :: !("---" <= lines[k])
    ensures !At(Join(lines, "\n") + remainder, MARK, j)
  {
    var g := Join(lines, "\n");
    if At(g + remainder, MARK, j) {
      MarkIsInside(g, remainder, j);
      var k := LineOfOccurrence(g, "---", false, j);
    }
  }

  lemma MarkIsInside(g: string, remainder: string, j: nat)
    requires j < |g| && MARK <= remainder && At(g + remainder, MARK, j)
    ensures At(g, MARK, j)
  {
    var text := g + remainder;
    assert forall i | 0 <= i < 4 :: text[j + i] == text[j..j + 4][i] == MARK[i];
    assert text[|g|] == remainder[0] == '\n';
    assert text[j + 1] == '-' && text[j + 2] == '-' && text[j + 3] == '-';
    assert j + 4 <= |g|;
    assert g[j..j + 4] == text[j..j + 4];
  }

  lemma BlanksAreIds(lines: seq<string>)
    requires forall i | 0 <= i < |lines| :: !IsIdLine(lines[i])
    ensures forall i | 0 <= i < |lines| :: !IsBlankId(lines[i])
  {
  }

  lemma OthersHaveNoId(after: string)
    requires Classify(Lines(Region(after))) != Malformed && IdLines(Lines(Region(after))) <= 1
    ensures IdLines(Others(after)) == 0
    ensures Classify(Lines(Region(after))) == Absent ==> Kept(Lines(Region(after))) == Lines(Region(after))
  {
    var lines := Lines(Region(after));
    ClassifySeesIdLines(lines);
    IdLinesNone(lines);
    IdLinesKept(lines);
    KeptIsAll(lines);
    if IdLines(lines) == 0 {
      BlanksAreIds(lines);
    }
    IdLinesBack([], "");
    assert [] + [""] == [""];
  }

  lemma OthersJoin(after: string)
    ensures Join(Others(after), "\n") == Join(Kept(Lines(Region(after))), "\n")
  {
  }

  lemma RegionAndRemainder(after: string)
    ensures after == Region(after) + Remainder(after)
    ensures Join(Lines(Region(after)), "\n") == Region(after)
  {
    JoinSplit(Region(after), "\n");
  }

  // Whether or not a blank id was dropped, the splice is the id on top of the
  // other lines.
  lemma SplicedText(id: string, after: string)
    requires Index(after, MARK).Some? && Classify(Lines(Region(after))) != Malformed && IdLines(Lines(Region(after))) <= 1
    ensures Spliced(id, after) == "id: " + id + "\n" + (Join(Others(after), "\n") + Remainder(after))
  {
    OthersHaveNoId(after);
    OthersJoin(after);
    RegionAndRemainder(after);
    hide Kept, Region, Remainder, Others, IdLines, Lines, Index;
  }

  lemma Reassociate(head: string, text: string, remainder: string)
    ensures head + "\n" + (text + remainder) == head + "\n" + text + remainder
  {
  }

  lemma SplicedLines(id: string, after: string)
    requires Index(after, MARK).Some? && Classify(Lines(Region(after))) != Malformed && IdLines(Lines(Region(after))) <= 1
    ensures Spliced(id, after) == Join(["id: " + id] + Others(after), "\n") + Remainder(after)
    ensures Spliced(id, after) == ("id: " + id) + "\n" + Join(Others(after), "\n") + Remainder(after)
  {
    SplicedText(id, after);
    Reassociate("id: " + id, Join(Others(after), "\n"), Remainder(after));
    JoinAppend(["id: " + id], Others(after), "\n");
    hide Spliced, Kept, Region, Remainder, Classify, IdLines, Lines, Index;
  }

  // ---- blocks as lines ----

  // What must follow a block for it to end there, and the body then.
  predicate Closed(remainder: string) { CLOSE <= remainder || remainder == MARK }

  function BodyOf(remainder: string): string { if CLOSE <= remainder then remainder[5..] else "" }

  // Content past its opening fence, as the lines of its block and the rest.
  predicate Block(after: string, lines: seq<string>, remainder: string) {
    && lines != [] && (forall l | l in lines :: '\n' !in l) && Closed(remainder)
    && (forall k | 0 < k < |lines| :: !BareFence(lines, k))
    && after == Join(lines, "\n") + remainder
  }

  lemma BlockOf(after: string)
    requires SplitRest(after).Some?
    ensures var (fm, body) := SplitRest(after).value; var remainder := after[|fm|..];
            Block(after, Lines(fm), remainder) && body == BodyOf(remainder)
  {
    hide IndexFrom;
    var (fm, body) := SplitRest(after).value;
    var remainder := after[|fm|..];
    match Index(after, CLOSE) {
      case Some(end) => assert after[end..end + 5] == after[end..][..5];
      case None =>
    }
    assert Closed(remainder) && after == fm + remainder;
    JoinSplit(fm, "\n");
    forall l | l in Lines(fm) ensures '\n' !in l {
      LinesAreFree(fm, l);
    }
    forall k | 0 < k < |Lines(fm)| ensures !BareFence(Lines(fm), k) {
      NoBareInside(after, fm, remainder, k);
    }
  }

  lemma NoBareInside(after: string, fm: string, remainder: string, k: nat)
    requires after == fm + remainder && MARK <= remainder && k < |Lines(fm)|
    requires forall j: nat | j < |fm| :: !At(after, CLOSE, j)
    ensures !BareFence(Lines(fm), k)
  {
    if BareFence(Lines(fm), k) {
      var j := LaterLine(fm, "---", true, k);
      EarlyClose(fm, remainder, j);
    }
  }

  lemma CloseIsBare(g: string, remainder: string, j: nat) returns (k: nat)
    requires Closed(remainder) && j < |g| && At(g + remainder, CLOSE, j)
    ensures 0 < k < |Lines(g)| && BareFence(Lines(g), k)
  {
    CloseIsALine(g, remainder, j);
    k := LineOfOccurrence(g, "---", true, j);
  }

  lemma SplitOfBlock(after: string, lines: seq<string>, remainder: string)
    requires Block(after, lines, remainder)
    ensures SplitRest(after) == Some((Join(lines, "\n"), BodyOf(remainder))) && Lines(Join(lines, "\n")) == lines
  {
    hide IndexFrom, Split;
    var g := Join(lines, "\n");
    SplitJoin(lines, '\n');
    forall j: nat | j < |g| ensures !At(after, CLOSE, j) {
      if At(after, CLOSE, j) {
        var k := CloseIsBare(g, remainder, j);
      }
    }
    if CLOSE <= remainder {
      assert after[|g|..|g| + 5] == remainder[..5];
      IndexIs(after, CLOSE, |g|);
    } else {
      assert forall j: nat :: !At(after, CLOSE, j);
    }
  }

  // ---- the region within the block ----

  // How many lines stand before the first later one that opens with "---".
  function HeadFrom(lines: seq<string>, k: nat): (h: nat)
    requires 0 < k <= |lines|
    ensures k <= h <= |lines| && (h < |lines| ==> "---" <= lines[h])
    ensures forall i | k <= i < h :: !("---" <= lines[i])
    decreases |lines| - k
  {
    if k == |lines| || "---" <= lines[k] then k else HeadFrom(lines, k + 1)
  }

  function Head(lines: seq<string>): nat
    requires lines != []
  {
    HeadFrom(lines, 1)
  }

  function Rest(lines: seq<string>, remainder: string): string {
    if lines == [] then remainder else "\n" + Join(lines, "\n") + remainder
  }

  lemma JoinThenRest(a: seq<string>, b: seq<string>, remainder: string)
    requires a != []
    ensures Join(a + b, "\n") + remainder == Join(a, "\n") + Rest(b, remainder)
  {
    if b == [] {
      assert a + b == a;
    } else {
      JoinAppend(a, b, "\n");
      Reassociate(Join(a, "\n"), Join(b, "\n"), remainder);
      Reassociate("", Join(b, "\n"), remainder);
      hide Join;
      assert Join(a, "\n") + "\n" + (Join(b, "\n") + remainder) == Join(a, "\n") + ("\n" + Join(b, "\n") + remainder);
    }
  }

  lemma RestOpens(lines: seq<string>, remainder: string)
    requires MARK <= remainder && (lines != [] ==> "---" <= lines[0])
    ensures MARK <= Rest(lines, remainder)
  {
    if lines != [] {
      assert "---" <= Join(lines, "\n");
    }
  }

  // The splice edits the lines before a later line that opens with "---".
  lemma RegionOfBlock(after: string, lines: seq<string>, remainder: string)
    requires Block(after, lines, remainder)
    ensures var h := Head(lines);
            && Index(after, MARK).Some?
            && Lines(Region(after)) == lines[..h] && Remainder(after) == Rest(lines[h..], remainder)
  {
    var h := Head(lines);
    assert lines == lines[..h] + lines[h..];
    JoinThenRest(lines[..h], lines[h..], remainder);
    RestOpens(lines[h..], remainder);
    RegionOfLines(lines[..h], Rest(lines[h..], remainder));
    RestIsSome(after, Rest(lines[h..], remainder));
  }

  lemma RestIsSome(after: string, remainder: string)
    requires Remainder(after) == remainder && MARK <= remainder
    ensures Index(after, MARK).Some?
  {
  }

  // ---- what the splice leaves ----

  // The new block: the id on top, blank ids gone from the region, the rest as
  // it was.
  function NewLines(id: string, lines: seq<string>): seq<string>
    requires lines != []
  {
    var h := Head(lines);
    ["id: " + id] + OrBlank(Kept(lines[..h])) + lines[h..]
  }

  // An id line below a line that opens with "---", out of the splice's sight.
  predicate IdBelowMark(lines: seq<string>) {
    exists k, m | 0 < k < m < |lines| :: "---" <= lines[k] && IsIdLine(lines[m])
  }

  lemma SplicedBlock(id: string, after: string, lines: seq<string>, remainder: string)
    requires Block(after, lines, remainder) && Classify(lines[..Head(lines)]) != Malformed && IdLines(lines) <= 1
    ensures Spliced(id, after) == Join(NewLines(id, lines), "\n") + remainder
    ensures IdLines(OrBlank(Kept(lines[..Head(lines)]))) == 0
  {
    var h := Head(lines);
    var top := ["id: " + id] + OrBlank(Kept(lines[..h]));
    RegionOfBlock(after, lines, remainder);
    IdLinesSplit(lines[..h], lines[h..]);
    assert lines == lines[..h] + lines[h..];
    SplicedLines(id, after);
    OthersHaveNoId(after);
    hide Block, Region, Remainder, Spliced, Join, Lines, Index, Kept, Classify, IdLines;
    JoinThenRest(top, lines[h..], remainder);
  }

  lemma {:induction false} IdLinesSplit(a: seq<string>, b: seq<string>)
    ensures IdLines(a + b) == IdLines(a) + IdLines(b)
  {
    if b == [] {
      assert a + b == a;
    } else {
      IdLinesSplit(a, b[..|b| - 1]);
      assert (a + b)[..|a + b| - 1] == a + b[..|b| - 1];
    }
  }

  lemma NewLinesAreLines(id: string, after: string, lines: seq<string>, remainder: string)
    requires '\n' !in id && Block(after, lines, remainder) && lines[0] != "---"
    ensures forall l | l in NewLines(id, lines) :: '\n' !in l
    ensures forall k | 0 < k < |NewLines(id, lines)| :: !BareFence(NewLines(id, lines), k)
  {
    var h, now := Head(lines), NewLines(id, lines);
    forall l | l in now[1..] ensures '\n' !in l && l != "---" {
      if l in Kept(lines[..h]) {
        var i :| 0 <= i < |Kept(lines[..h])| && Kept(lines[..h])[i] == l;
        var k := KeptAreLines(lines[..h], i);
        assert lines[k] == l && (k > 0 ==> !BareFence(lines, k));
      } else if l in lines[h..] {
        var k :| h <= k < |lines| && lines[k] == l;
        assert !BareFence(lines, k);
      }
    }
    forall l | l in now ensures '\n' !in l {
      assert now == [now[0]] + now[1..];
    }
    forall k | 0 < k < |now| ensures !BareFence(now, k) {
      assert now[k] in now[1..];
    }
  }

  // The lines that are no id, in order.
  function NoIds(lines: seq<string>): seq<string> {
    if lines == [] then []
    else NoIds(lines[..|lines| - 1]) + if IsIdLine(lines[|lines| - 1]) then [] else [lines[|lines| - 1]]
  }

  lemma {:induction false} NoIdsSplit(a: seq<string>, b: seq<string>)
    ensures NoIds(a + b) == NoIds(a) + NoIds(b)
  {
    if b == [] {
      assert a + b == a;
    } else {
      NoIdsSplit(a, b[..|b| - 1]);
      assert (a + b)[..|a + b| - 1] == a + b[..|b| - 1];
    }
  }

  lemma {:induction false} NoIdsKept(lines: seq<string>)
    ensures NoIds(Kept(lines)) == NoIds(lines)
  {
    if lines != [] {
      var init, last := lines[..|lines| - 1], lines[|lines| - 1];
      NoIdsKept(init);
      BlankIsAnId(last);
      NoIdsSplit(Kept(init), if IsBlankId(last) then [] else [last]);
      hide IsBlankId, IsIdLine;
      assert [last][..0] == [];
    }
  }

  // The new block shows the lines that were no id, in order, below an empty
  // line when nothing else is left of the region.
  lemma OtherLinesStay(id: string, lines: seq<string>)
    requires lines != []
    ensures NewLines(id, lines)[0] == "id: " + id
    ensures NoIds(NewLines(id, lines)) == (if Kept(lines[..Head(lines)]) == [] then [""] else []) + NoIds(lines)
  {
    var h, top := Head(lines), "id: " + id;
    NoIdsBelow(top, lines[..h], lines[h..]);
    assert lines == lines[..h] + lines[h..];
  }

  lemma NoIdsBelow(top: string, region: seq<string>, below: seq<string>)
    requires IsIdLine(top)
    ensures NoIds([top] + OrBlank(Kept(region)) + below) == (if Kept(region) == [] then [""] else []) + NoIds(region + below)
  {
    hide Kept, NoIds, IsIdLine, OrBlank;
    var blank := if Kept(region) == [] then [""] else [];
    NoIdsSplit([top] + OrBlank(Kept(region)), below);
    NoIdsSplit(region, below);
    NoIdsOnTop(top, region);
    assert blank + NoIds(region) + NoIds(below) == blank + (NoIds(region) + NoIds(below));
  }

  lemma NoIdsOnTop(top: string, region: seq<string>)
    requires IsIdLine(top)
    ensures NoIds([top] + OrBlank(Kept(region))) == (if Kept(region) == [] then [""] else []) + NoIds(region)
  {
    NoIdsOne(top);
    NoIdsOne("");
    NoIdsSplit([top], OrBlank(Kept(region)));
    NoIdsKept(region);
    assert NoIds([]) == [];
    hide NoIds, Kept, IsIdLine;
  }

  lemma NoIdsOne(l: string)
    ensures NoIds([l]) == if IsIdLine(l) then [] else [l]
    ensures !IsIdLine("")
  {
    assert [l][..0] == [];
  }

  lemma FenceIsNoId(line: string)
    ensures "---" <= line ==> !IsIdLine(line)
  {
    if "---" <= line {
      assert line[0] == '-';
    }
  }

  // One id line is left exactly when none stands out of the splice's sight.
  lemma NewIdLines(id: string, lines: seq<string>)
    requires lines != [] && IdLines(OrBlank(Kept(lines[..Head(lines)]))) == 0
    ensures IdLines(NewLines(id, lines)) == 1 <==> !IdBelowMark(lines)
  {
    var h := Head(lines);
    var below := lines[h..];
    IdLinesSplit(["id: " + id] + OrBlank(Kept(lines[..h])), below);
    IdLinesFront("id: " + id, OrBlank(Kept(lines[..h])));
    assert IsIdLine("id: " + id);
    IdLinesNone(below);
    hide Kept, IdLines;
    if i :| 0 <= i < |below| && IsIdLine(below[i]) {
      FenceIsNoId(below[0]);
      assert "---" <= lines[h] && IsIdLine(lines[h + i]);
    }
    if k, m :| 0 < k < m < |lines| && "---" <= lines[k] && IsIdLine(lines[m]) {
      assert h <= k;
      assert below[m - h] == lines[m];
    }
  }

  // A block whose first line is a bare fence is closed by it under the new id.
  lemma BareFirstCloses(id: string, out: string, text: string)
    requires out == "id: " + id + "\n" + text && "---\n" <= text
    ensures SplitRest(out).Some? && |SplitRest(out).value.0| <= |"id: " + id|
  {
    var g := |"id: " + id|;
    assert out[g] == '\n' && out[g + 1..g + 5] == text[..4];
    assert out[g..g + 5] == [out[g]] + out[g + 1..g + 5] == CLOSE;
    assert At(out, CLOSE, g);
    assert Index(out, CLOSE).value <= g;
  }

  lemma BareFirstOpens(lines: seq<string>, more: seq<string>, remainder: string)
    requires lines != [] && lines[0] == "---" && MARK <= remainder
    ensures "---\n" <= Join(lines + more, "\n") + remainder
  {
    var all := lines + more;
    assert all[0] == "---";
    if |all| > 1 {
      assert Join(all, "\n")[..4] == "---\n";
    } else {
      assert Join(all, "\n") == "---" && remainder[0] == '\n';
    }
  }

  lemma {:induction false} FirstIsKept(lines: seq<string>)
    requires lines != [] && lines[0] == "---"
    ensures Kept(lines) != [] && Kept(lines)[0] == lines[0]
  {
    if |lines| == 1 {
      assert lines[..0] == [];
      assert lines[0][0] == '-';
    } else {
      FirstIsKept(lines[..|lines| - 1]);
    }
  }

  lemma BareFirstFails(id: string, after: string, lines: seq<string>, remainder: string)
    requires Block(after, lines, remainder) && lines[0] == "---"
    requires Spliced(id, after) == Join(NewLines(id, lines), "\n") + remainder
    ensures var now := SplitRest(Spliced(id, after)); now.Some? && Lines(now.value.0) != NewLines(id, lines)
  {
    var h := Head(lines);
    var kept := Kept(lines[..h]);
    FirstIsKept(lines[..h]);
    assert NewLines(id, lines) == ["id: " + id] + (kept + lines[h..]);
    JoinAppend(["id: " + id], kept + lines[h..], "\n");
    BareFirstOpens(kept, lines[h..], remainder);
    var out, text := Spliced(id, after), Join(kept + lines[h..], "\n");
    assert out == "id: " + id + "\n" + (text + remainder);
    BareFirstCloses(id, out, text + remainder);
    JoinSplit(SplitRest(out).value.0, "\n");
  }

  // What a caller of the splice wants of the block it parses next.
  predicate OneIdOnTop(id: string, before: (string, string), now: Option<(string, string)>) {
    && now.Some? && now.value.1 == before.1
    && Lines(now.value.0) == NewLines(id, Lines(before.0))
    && IdLines(Lines(now.value.0)) == 1
  }

  // For a block holding at most one id line, the spliced file parses to one id
  // line on top of every other line in order, over the same body, exactly when
  // the block's first line is not a bare fence and no id line stands below a
  // later line that opens with one.
  lemma SpliceLeavesOneId(id: string, after: string)
    requires '\n' !in id && SplitRest(after).Some?
    requires Classify(Lines(Region(after))) != Malformed && IdLines(Lines(SplitRest(after).value.0)) <= 1
    ensures var lines := Lines(SplitRest(after).value.0);
            OneIdOnTop(id, SplitRest(after).value, SplitRest(Spliced(id, after)))
            <==> lines[0] != "---" && !IdBelowMark(lines)
  {
    var (fm, body) := SplitRest(after).value;
    var lines, remainder := Lines(fm), after[|fm|..];
    BlockOf(after);
    RegionOfBlock(after, lines, remainder);
    SplicedBlock(id, after, lines, remainder);
    NewIdLines(id, lines);
    if lines[0] == "---" {
      BareFirstFails(id, after, lines, remainder);
    } else {
      NewLinesAreLines(id, after, lines, remainder);
      SplitOfBlock(Spliced(id, after), NewLines(id, lines), remainder);
    }
  }

  lemma PastTheFence(rest: string)
    ensures FENCE <= FENCE + rest && (FENCE + rest)[4..] == rest
  {
  }

  // The same of the whole file.
  lemma SpliceKeepsTheBody(id: string, after: string)
    requires '\n' !in id && SplitFrontmatter(FENCE + after).hasFM
    requires Classify(Lines(Region(after))) != Malformed && IdLines(Lines(SplitFrontmatter(FENCE + after).fm)) <= 1
    ensures var before, now := SplitFrontmatter(FENCE + after), SplitFrontmatter(FENCE + Spliced(id, after));
            && (now.hasFM && now.body == before.body
                && Lines(now.fm) == NewLines(id, Lines(before.fm)) && IdLines(Lines(now.fm)) == 1
                <==> Lines(before.fm)[0] != "---" && !IdBelowMark(Lines(before.fm)))
  {
    PastTheFence(after);
    PastTheFence(Spliced(id, after));
    SpliceLeavesOneId(id, after);
  }

  lemma BlockSplits(lines: seq<string>, remainder: string)
    requires Block(Join(lines, "\n") + remainder, lines, remainder)
    ensures SplitRest(Join(lines, "\n") + remainder) == Some((Join(lines, "\n"), BodyOf(remainder)))
    ensures Lines(Join(lines, "\n")) == lines && Lines(Region(Join(lines, "\n") + remainder)) == lines[..Head(lines)]
  {
    SplitOfBlock(Join(lines, "\n") + remainder, lines, remainder);
    RegionOfBlock(Join(lines, "\n") + remainder, lines, remainder);
  }

  // A blank id below such a line stays, under the one minted for it.
  const HIDDEN_ID := ["t: x", "---y: 1", "id:"]
  const BODY := "\n---\nbody"

  lemma HiddenIdLines()
    ensures forall l | l in HIDDEN_ID :: '\n' !in l && l != "---"
    ensures Head(HIDDEN_ID) == 1 && HIDDEN_ID[..1] == ["t: x"]
    ensures !IsIdLine("t: x") && !IsIdLine("---y: 1") && IsIdLine("id:") && IsIdLine("id: X")
  {
    assert HIDDEN_ID[0] == "t: x" && HIDDEN_ID[1] == "---y: 1" && HIDDEN_ID[2] == "id:";
    assert "t: x"[0] == 't' && "---y: 1"[3] == 'y' && "id:"[0] == 'i';
    assert "---" <= "---y: 1";
  }

  lemma HiddenIdCount()
    ensures Kept(["t: x"]) == ["t: x"] && Classify(["t: x"]) == Absent
    ensures IdLines(HIDDEN_ID) == 1 && IdLines(["id: X"] + HIDDEN_ID) == 2
  {
    HiddenIdLines();
    BlanksAreIds(["t: x"]);
    KeptIsAll(["t: x"]);
    ClassifySeesIdLines(["t: x"]);
    IdLinesFront("id:", []);
    IdLinesFront("---y: 1", ["id:"]);
    IdLinesFront("t: x", ["---y: 1", "id:"]);
    IdLinesFront("id: X", HIDDEN_ID);
    hide Kept, IdLines, KindOf, IsIdLine, Classify;
    assert ["id:"] + [] == ["id:"] && ["---y: 1"] + ["id:"] == ["---y: 1", "id:"];
    assert ["t: x"] + ["---y: 1", "id:"] == HIDDEN_ID;
  }

  lemma TwoIdsRemain()
    ensures var after := Join(HIDDEN_ID, "\n") + BODY;
            && SplitRest(after) == Some((Join(HIDDEN_ID, "\n"), "body"))
            && SplitRest(Spliced("X", after)) == Some((Join(["id: X"] + HIDDEN_ID, "\n"), "body"))
            && IdLines(["id: X"] + HIDDEN_ID) == 2
  {
    hide Kept, IdLines, Classify, Head, Join, Spliced, SplitRest, Lines, Region;
    var after := Join(HIDDEN_ID, "\n") + BODY;
    HiddenIdLines();
    HiddenIdCount();
    assert Block(after, HIDDEN_ID, BODY);
    BlockSplits(HIDDEN_ID, BODY);
    SplicedBlock("X", after, HIDDEN_ID, BODY);
    assert "id: " + "X" == "id: X";
    assert NewLines("X", HIDDEN_ID) == ["id: X"] + HIDDEN_ID[..1] + HIDDEN_ID[1..];
    assert NewLines("X", HIDDEN_ID) == ["id: X"] + HIDDEN_ID;
    NewLinesAreLines("X", after, HIDDEN_ID, BODY);
    SplitOfBlock(Spliced("X", after), NewLines("X", HIDDEN_ID), BODY);
    assert BodyOf(BODY) == "body";
  }

  // ---- ensureNoteID ----

  // How the index answers a lookup by path.
  datatype Lookup = NotIndexed | Indexed(id: string) | LookupFailed

  datatype Ensured = Content(text: string) | Rejected | Unavailable

  // A region nothing closes only gets the id in front of it.
  lemma UnclosedIsKept(id: string, after: string)
    requires forall j: nat :: !At(after, MARK, j)
    ensures Spliced(id, after) == "id: " + id + "\n" + after
  {
    assert Index(after, MARK).None?;
  }

  // `parsed` is the id the content's own YAML yields, None when the content has
  // no parsed frontmatter; `onDisk` is the id of the file now at that path. The
  // file's own id wins over the index's, and a new one is used only when there
  // is neither.
  method EnsureNoteId(content: string, parsed: Option<string>, onDisk: string, indexed: Lookup, minted: string)
    returns (r: Ensured)
    ensures parsed.None? || Trim(parsed.value) != "" ==> r == Content(content)
    ensures parsed.Some? && Trim(parsed.value) == "" ==>
              var id := if onDisk != "" then Some(onDisk)
                        else match indexed
                             case Indexed(known) => Some(known)
                             case NotIndexed => Some(minted)
                             case LookupFailed => None;
              if id.None? then r == Unavailable
              else if !(FENCE <= content) then r == Content(content)
              else if Classify(Lines(Region(content[4..]))) == Malformed then r == Rejected
              else r == Content(FENCE + Spliced(id.value, content[4..]))
  {
    if parsed.None? || Trim(parsed.value) != "" {
      return Content(content);
    }
    var id := onDisk;
    if id == "" {
      match indexed {
        case Indexed(existing) => id := existing;
        case NotIndexed => id := minted;
        case LookupFailed => return Unavailable;
      }
    }
    if !(FENCE <= content) {
      return Content(content);
    }
    var after := content[4..];
    var kind := ClassifyIdLine(Region(after));
    if kind == Malformed {
      return Rejected;
    }
    if kind == BlankId {
      after := DropBlankIdKey(after);
    }
    r := Content(FENCE + ("id: " + id + "\n" + after));
  }
}
