// Sections folded and packed into embeddable pieces. Strings stand for bytes.
module Chunking {
  import opened Text

  const MERGE_BELOW: nat := 200
  const HARD_SPLIT_OVER: nat := 6000
  const BLANK := "\n\n"

  // ---- hardSplit ----

  predicate Overflows(cur: string, p: string) { cur != "" && |cur| + |p| + 2 > HARD_SPLIT_OVER }

  function Extend(cur: string, p: string): string { if cur != "" then cur + BLANK + p else p }

  function Rest(cur: string): seq<string> { if cur != "" then [cur] else [] }

  // Greedy packing from an open piece onward.
  function Pack(cur: string, paras: seq<string>): seq<string>
    decreases paras
  {
    if paras == [] then Rest(cur)
    else if Overflows(cur, paras[0]) then [cur] + Pack(paras[0], paras[1..])
    else Pack(Extend(cur, paras[0]), paras[1..])
  }

  // hardSplit's result.
  function Pieces(content: string): seq<string> {
    if |content| <= HARD_SPLIT_OVER then [content] else Pack("", Split(content, BLANK))
  }

  lemma PackStep(out: seq<string>, cur: string, paras: seq<string>)
    requires paras != []
    ensures out + Pack(cur, paras) ==
            if Overflows(cur, paras[0]) then out + [cur] + Pack(paras[0], paras[1..])
            else out + Pack(Extend(cur, paras[0]), paras[1..])
  {
  }

  method HardSplit(content: string) returns (out: seq<string>)
    ensures out == Pieces(content)
  {
    if |content| <= HARD_SPLIT_OVER {
      return [content];
    }
    var paras := Split(content, BLANK);
    var cur := "";
    out := [];
    for i := 0 to |paras|
      invariant out + Pack(cur, paras[i..]) == Pack("", paras)
    {
      var p := paras[i];
      assert paras[i..][1..] == paras[i + 1..];
      PackStep(out, cur, paras[i..]);
      assert "" + p == p;
      if cur != "" && |cur| + |p| + 2 > HARD_SPLIT_OVER {
        out := out + [cur];
        cur := "";
      }
      if cur != "" {
        cur := cur + BLANK;
      }
      cur := cur + p;
    }
    if cur != "" {
      out := out + [cur];
    }
  }

  // ---- what is lost ----

  // Paragraphs that vanish: an empty one opening a piece leaves no mark there.
  function Dropped(cur: string, paras: seq<string>): nat
    decreases paras
  {
    if paras == [] then 0
    else if Overflows(cur, paras[0]) then (if paras[0] == "" then 1 else 0) + Dropped(paras[0], paras[1..])
    else (if cur == "" && paras[0] == "" then 1 else 0) + Dropped(Extend(cur, paras[0]), paras[1..])
  }

  function Weight(parts: seq<string>): nat {
    if parts == [] then 0 else |parts[0]| + 2 + Weight(parts[1..])
  }

  lemma {:induction false} JoinWeighs(parts: seq<string>)
    ensures |Join(parts, BLANK)| == if parts == [] then 0 else Weight(parts) - 2
  {
    if |parts| > 1 {
      JoinWeighs(parts[1..]);
    } else if |parts| == 1 {
      assert Weight(parts[1..]) == 0;
    }
  }

  // Packing keeps every byte but two for each paragraph dropped.
  lemma {:induction false} PackWeighs(cur: string, paras: seq<string>)
    ensures Weight(Pack(cur, paras)) + 2 * Dropped(cur, paras) == Weight(Rest(cur)) + Weight(paras)
    decreases paras
  {
    if paras != [] {
      var p, rest := paras[0], paras[1..];
      if Overflows(cur, p) {
        PackWeighs(p, rest);
        assert Pack(cur, paras)[1..] == Pack(p, rest);
      } else {
        PackWeighs(Extend(cur, p), rest);
      }
    }
  }

  lemma {:induction false} PackJoins(cur: string, paras: seq<string>)
    requires Dropped(cur, paras) == 0
    ensures Join(Pack(cur, paras), BLANK) == Join(Rest(cur) + paras, BLANK)
    ensures paras != [] ==> Pack(cur, paras) != []
    decreases paras
  {
    if paras == [] {
      assert Rest(cur) + paras == Rest(cur);
    } else {
      var p, rest := paras[0], paras[1..];
      if Overflows(cur, p) {
        PackJoins(p, rest);
        assert Rest(cur) + paras == [cur] + paras && paras == [p] + rest;
        assert rest == [] ==> Pack(p, rest) == [p];
        JoinAppend([cur], Pack(p, rest), BLANK);
        JoinAppend([cur], paras, BLANK);
      } else {
        PackJoins(Extend(cur, p), rest);
        assert rest == [] ==> Pack(Extend(cur, p), rest) == [Extend(cur, p)];
        assert Rest(Extend(cur, p)) == [Extend(cur, p)];
        if cur == "" {
          assert Rest(cur) + paras == [p] + rest;
        } else {
          JoinsFold(cur, p, rest);
          assert Rest(cur) + paras == [cur, p] + rest;
        }
      }
    }
  }

  lemma JoinsFold(a: string, b: string, rest: seq<string>)
    ensures Join([a, b] + rest, BLANK) == Join([a + BLANK + b] + rest, BLANK)
  {
    if rest != [] {
      JoinAppend([a, b], rest, BLANK);
      JoinAppend([a + BLANK + b], rest, BLANK);
    } else {
      assert [a, b] + rest == [a, b] && [a + BLANK + b] + rest == [a + BLANK + b];
    }
  }

  // Joining the pieces restores the content exactly when no paragraph was
  // dropped; otherwise it is two bytes short for each.
  lemma SplitIsLosslessIff(content: string)
    requires |content| > HARD_SPLIT_OVER
    ensures var paras := Split(content, BLANK); var pieces := Pack("", paras);
            && (Join(pieces, BLANK) == content <==> Dropped("", paras) == 0)
            && (pieces != [] ==> |Join(pieces, BLANK)| == |content| - 2 * Dropped("", paras))
  {
    var paras := Split(content, BLANK);
    var pieces := Pack("", paras);
    JoinSplit(content, BLANK);
    JoinWeighs(paras);
    JoinWeighs(pieces);
    PackWeighs("", paras);
    if Dropped("", paras) == 0 {
      PackJoins("", paras);
      assert Rest("") + paras == paras;
    }
  }

  // In particular, content without an empty paragraph survives whole.
  lemma {:induction false} NoEmptyNoneDropped(cur: string, paras: seq<string>)
    requires forall i | 0 <= i < |paras| :: paras[i] != ""
    ensures Dropped(cur, paras) == 0
    decreases paras
  {
    if paras != [] {
      NoEmptyNoneDropped(if Overflows(cur, paras[0]) then paras[0] else Extend(cur, paras[0]), paras[1..]);
    }
  }

  lemma SplitAtFirst(a: string, rest: string)
    requires forall j: nat | j < |a| :: !At(a + BLANK + rest, BLANK, j)
    ensures Split(a + BLANK + rest, BLANK) == [a] + Split(rest, BLANK)
  {
    var s := a + BLANK + rest;
    assert s[|a|..|a| + 2] == BLANK;
    IndexIs(s, BLANK, |a|);
    assert s[..|a|] == a && s[|a| + 2..] == rest;
  }

  lemma EarlierBlank(a: string, rest: string, j: nat)
    requires j < |a| && At(a + BLANK + rest, BLANK, j)
    ensures At(a, BLANK, j) || a[|a| - 1] == '\n'
  {
    var s := a + BLANK + rest;
    assert s[j] == s[j..j + 2][0] && s[j] == a[j];
    assert j + 1 < |a| ==> a[j..j + 2] == s[j..j + 2];
  }

  // An oversized paragraph, a blank one, then a tail: the blank one opens a
  // piece and is gone from what hardSplit returns.
  lemma BlankAtABoundaryIsDropped(long: string)
    requires |long| > HARD_SPLIT_OVER && long[|long| - 1] != '\n' && forall j: nat :: !At(long, BLANK, j)
    ensures var content := long + BLANK + (BLANK + "tail");
            Pieces(content) == [long, "tail"] && Join(Pieces(content), BLANK) == long + BLANK + "tail"
  {
    var content := long + BLANK + (BLANK + "tail");
    forall j: nat | j < |long| ensures !At(content, BLANK, j) {
      if At(content, BLANK, j) {
        EarlierBlank(long, BLANK + "tail", j);
      }
    }
    SplitAtFirst(long, BLANK + "tail");
    assert "" + BLANK + "tail" == BLANK + "tail";
    SplitAtFirst("", "tail");
    TailIsOne();
    DroppedBetween(long);
    assert [long] + ([""] + ["tail"]) == [long, "", "tail"];
  }

  lemma BlankHasABreak(s: string, j: nat)
    ensures At(s, BLANK, j) ==> '\n' in s
  {
    if At(s, BLANK, j) {
      assert s[j] == s[j..j + 2][0];
    }
  }

  lemma TailIsOne()
    ensures Split("tail", BLANK) == ["tail"]
  {
    forall j: nat ensures !At("tail", BLANK, j) {
      BlankHasABreak("tail", j);
    }
  }

  lemma DroppedBetween(long: string)
    requires |long| > HARD_SPLIT_OVER
    ensures Pack("", [long, "", "tail"]) == [long, "tail"]
  {
    var rest := ["", "tail"];
    assert [long, "", "tail"][1..] == rest && rest[1..] == ["tail"] && ["tail"][1..] == [];
    assert Extend("", long) == long && Overflows(long, "") && Extend("", "tail") == "tail";
    assert Pack("", ["tail"]) == Pack("tail", []) == ["tail"];
    assert Pack(long, rest) == [long] + Pack("", ["tail"]);
  }

  // ---- how large a piece can be ----

  // Within the cap, or one paragraph that alone exceeds it.
  lemma {:induction false} PiecesFit(cur: string, paras: seq<string>, k: nat)
    requires k < |Pack(cur, paras)|
    ensures var piece := Pack(cur, paras)[k]; piece != "" && (|piece| <= HARD_SPLIT_OVER || piece == cur || piece in paras)
    decreases paras
  {
    if paras != [] {
      var p, rest := paras[0], paras[1..];
      assert forall x | x in rest :: x in paras;
      if Overflows(cur, p) {
        if k > 0 {
          PiecesFit(p, rest, k - 1);
        }
      } else {
        PiecesFit(Extend(cur, p), rest, k);
      }
    }
  }

  // ---- no split has fewer pieces ----

  // A consecutive group that may stand as one piece.
  predicate Fits(group: seq<string>) { group != [] && (|group| == 1 || |Join(group, BLANK)| <= HARD_SPLIT_OVER) }

  function Flatten(groups: seq<seq<string>>): seq<string> {
    if groups == [] then [] else groups[0] + Flatten(groups[1..])
  }

  // Starting from a shorter open piece never costs more, and an open piece
  // costs at most one.
  lemma {:induction false} ShorterIsNoWorse(a: string, b: string, paras: seq<string>)
    requires a != "" && b != "" && |a| <= |b|
    ensures |Pack(a, paras)| <= |Pack(b, paras)|
    ensures |Pack("", paras)| <= |Pack(a, paras)| <= 1 + |Pack("", paras)|
    decreases paras
  {
    if paras != [] {
      var p, rest := paras[0], paras[1..];
      var ap, bp := Extend(a, p), Extend(b, p);
      ShorterIsNoWorse(ap, bp, rest);
      ShorterIsNoWorse(bp, bp, rest);
      if p != "" {
        ShorterIsNoWorse(p, ap, rest);
      }
    }
  }

  // Within a group that fits, the open piece is never closed.
  lemma {:induction false} GroupStaysOpen(cur: string, group: seq<string>, rest: seq<string>) returns (open: string)
    requires Weight(Rest(cur)) + Weight(group) <= HARD_SPLIT_OVER + 2
    ensures Pack(cur, group + rest) == Pack(open, rest)
    decreases group
  {
    if group == [] {
      assert group + rest == rest;
      open := cur;
    } else {
      var p := group[0];
      assert (group + rest)[0] == p && (group + rest)[1..] == group[1..] + rest;
      open := GroupStaysOpen(Extend(cur, p), group[1..], rest);
    }
  }

  lemma FirstGroupCostsOne(group: seq<string>, rest: seq<string>)
    requires Fits(group)
    ensures |Pack("", group + rest)| <= 1 + |Pack("", rest)|
  {
    var open: string;
    if |group| == 1 {
      assert (group + rest)[0] == group[0] && (group + rest)[1..] == rest;
      open := group[0];
    } else {
      JoinWeighs(group);
      open := GroupStaysOpen("", group, rest);
    }
    if open != "" {
      ShorterIsNoWorse(open, open, rest);
    }
  }

  // Greedy packing is optimal: any way of cutting the paragraphs, in order,
  // into groups that meet the limits has at least as many groups.
  lemma {:induction false} NoSplitHasFewer(groups: seq<seq<string>>)
    requires forall g | 0 <= g < |groups| :: Fits(groups[g])
    ensures |Pack("", Flatten(groups))| <= |groups|
  {
    if groups != [] {
      NoSplitHasFewer(groups[1..]);
      FirstGroupCostsOne(groups[0], Flatten(groups[1..]));
    }
  }

  // ---- mergeSmall ----

  datatype Section = Section(heading: string, content: string)

  function Contents(s: seq<Section>): seq<string> {
    seq(|s|, i requires 0 <= i < |s| => s[i].content)
  }

  // A short section is folded into the one before it, if there is one.
  function Fold(out: seq<Section>, s: Section): seq<Section> {
    if |out| > 0 && |s.content| < MERGE_BELOW then
      var last := out[|out| - 1];
      out[|out| - 1 := last.(content := last.content + BLANK + s.content)]
    else out + [s]
  }

  function Merged(sections: seq<Section>): seq<Section> {
    if sections == [] then [] else Fold(Merged(sections[..|sections| - 1]), sections[|sections| - 1])
  }

  method MergeSmall(sections: seq<Section>) returns (out: seq<Section>)
    ensures out == Merged(sections)
  {
    out := [];
    for i := 0 to |sections|
      invariant out == Merged(sections[..i])
    {
      var s := sections[i];
      assert sections[..i + 1][..i] == sections[..i];
      if |out| > 0 && |s.content| < MERGE_BELOW {
        var last := out[|out| - 1];
        out := out[|out| - 1 := last.(content := last.content + BLANK + s.content)];
      } else {
        out := out + [s];
      }
    }
    assert sections[..|sections|] == sections;
  }

  lemma FoldJoins(out: seq<Section>, s: Section)
    ensures Join(Contents(Fold(out, s)), BLANK) == Join(Contents(out) + [s.content], BLANK)
  {
    if |out| > 0 && |s.content| < MERGE_BELOW {
      var last := out[|out| - 1];
      var init := Contents(out[..|out| - 1]);
      assert Contents(out) + [s.content] == init + [last.content, s.content];
      assert Contents(Fold(out, s)) == init + [last.content + BLANK + s.content];
      if init != [] {
        JoinAppend(init, [last.content, s.content], BLANK);
        JoinAppend(init, [last.content + BLANK + s.content], BLANK);
      } else {
        assert init + [last.content, s.content] == [last.content, s.content];
        assert init + [last.content + BLANK + s.content] == [last.content + BLANK + s.content];
      }
    } else {
      assert Contents(Fold(out, s)) == Contents(out) + [s.content];
    }
  }

  // Text is only moved, never lost: read in order, the merged sections say what
  // the originals said.
  lemma {:induction false} MergedKeepsTheText(sections: seq<Section>)
    ensures Join(Contents(Merged(sections)), BLANK) == Join(Contents(sections), BLANK)
    ensures Merged(sections) == [] <==> sections == []
  {
    if sections != [] {
      var init, s := sections[..|sections| - 1], sections[|sections| - 1];
      MergedKeepsTheText(init);
      FoldJoins(Merged(init), s);
      assert Contents(sections) == Contents(init) + [s.content];
      if init != [] {
        JoinAppend(Contents(Merged(init)), [s.content], BLANK);
        JoinAppend(Contents(init), [s.content], BLANK);
      }
    }
  }

  // A merged section is an original one with what followed it.
  ghost predicate GrewFrom(m: Section, sections: seq<Section>) {
    exists j | 0 <= j < |sections| :: sections[j].heading == m.heading && sections[j].content <= m.content
  }

  // All but the first reach the minimum size; each keeps the heading of the
  // section it grew from.
  lemma {:induction false} MergedAreLarge(sections: seq<Section>, i: nat)
    requires i < |Merged(sections)|
    ensures i > 0 ==> |Merged(sections)[i].content| >= MERGE_BELOW
    ensures GrewFrom(Merged(sections)[i], sections)
  {
    var init, s := sections[..|sections| - 1], sections[|sections| - 1];
    if i < |Merged(init)| {
      MergedAreLarge(init, i);
      var m := Merged(init)[i];
      var j :| 0 <= j < |init| && init[j].heading == m.heading && init[j].content <= m.content;
      assert sections[j] == init[j];
    } else {
      assert sections[|sections| - 1] == Merged(sections)[i];
    }
  }

  // The sections that start a merged one: the first, and every one that reaches
  // the minimum by itself.
  function Starts(sections: seq<Section>): seq<Section> {
    if sections == [] then []
    else
      var last := sections[|sections| - 1];
      Starts(sections[..|sections| - 1])
      + if |sections| == 1 || |last.content| >= MERGE_BELOW then [last] else []
  }

  // Nothing else starts one, and nothing that should is folded away.
  lemma {:induction false} MergedStartThere(sections: seq<Section>)
    ensures |Merged(sections)| == |Starts(sections)|
    ensures forall i | 0 <= i < |Starts(sections)| ::
              && Merged(sections)[i].heading == Starts(sections)[i].heading
              && Starts(sections)[i].content <= Merged(sections)[i].content
  {
    if sections != [] {
      var init := sections[..|sections| - 1];
      MergedStartThere(init);
      if |sections| > 1 {
        MergedKeepsTheText(init);
      }
    }
  }

  // ---- Split ----

  datatype Chunk = Chunk(ordinal: nat, heading: string, content: string)

  // The pieces of each section in turn, under that section's heading.
  function Cut(sections: seq<Section>): seq<Section> {
    if sections == [] then []
    else
      var last := sections[|sections| - 1];
      Cut(sections[..|sections| - 1]) + Under(last.heading, Pieces(last.content))
  }

  function Under(heading: string, pieces: seq<string>): seq<Section> {
    seq(|pieces|, i requires 0 <= i < |pieces| => Section(heading, pieces[i]))
  }

  // A chunk's identity is its position, so duplicate headings cannot collide.
  ghost predicate Numbers(chunks: seq<Chunk>, cut: seq<Section>) {
    |chunks| == |cut| && forall i | 0 <= i < |chunks| :: chunks[i] == Chunk(i, cut[i].heading, cut[i].content)
  }

  method Emit(out: seq<Chunk>, s: Section, ghost cut: seq<Section>) returns (more: seq<Chunk>)
    requires Numbers(out, cut)
    ensures Numbers(more, cut + Under(s.heading, Pieces(s.content)))
  {
    var pieces := HardSplit(s.content);
    more := out;
    for j := 0 to |pieces|
      invariant Numbers(more, cut + Under(s.heading, pieces[..j]))
    {
      more := more + [Chunk(|more|, s.heading, pieces[j])];
      assert Under(s.heading, pieces[..j + 1]) == Under(s.heading, pieces[..j]) + [Section(s.heading, pieces[j])];
    }
    assert pieces[..|pieces|] == pieces;
  }

  method SplitSections(sections: seq<Section>) returns (out: seq<Chunk>)
    ensures Numbers(out, Cut(Merged(sections)))
  {
    hide Pieces, Under, Fold;
    var merged := MergeSmall(sections);
    out := [];
    for i := 0 to |merged|
      invariant Numbers(out, Cut(merged[..i]))
    {
      out := Emit(out, merged[i], Cut(merged[..i]));
      assert merged[..i + 1][..i] == merged[..i];
    }
    assert merged[..|merged|] == merged;
  }

  // No paragraph of any section is dropped.
  predicate Whole(sections: seq<Section>) {
    forall i | 0 <= i < |sections| ::
      sections[i].content != "" &&
      (|sections[i].content| > HARD_SPLIT_OVER ==> Dropped("", Split(sections[i].content, BLANK)) == 0)
  }

  lemma PiecesJoin(content: string)
    requires content != "" && (|content| > HARD_SPLIT_OVER ==> Dropped("", Split(content, BLANK)) == 0)
    ensures Pieces(content) != [] && Join(Pieces(content), BLANK) == content
  {
    if |content| > HARD_SPLIT_OVER {
      SplitIsLosslessIff(content);
    }
  }

  lemma ContentsAppend(a: seq<Section>, b: seq<Section>)
    ensures Contents(a + b) == Contents(a) + Contents(b)
  {
  }

  lemma UnderContents(heading: string, pieces: seq<string>)
    ensures Contents(Under(heading, pieces)) == pieces
  {
  }

  lemma CutSnoc(init: seq<Section>, s: Section)
    ensures Contents(Cut(init + [s])) == Contents(Cut(init)) + Pieces(s.content)
  {
    assert (init + [s])[..|init|] == init;
    ContentsAppend(Cut(init), Under(s.heading, Pieces(s.content)));
    UnderContents(s.heading, Pieces(s.content));
    hide Pieces, Contents, Under;
  }

  lemma ContentsSnoc(init: seq<Section>, s: Section)
    ensures Contents(init + [s]) == Contents(init) + [s.content]
  {
  }

  lemma JoinsStayEqual(a: seq<string>, b: seq<string>, tail: seq<string>, text: string)
    requires Join(a, BLANK) == Join(b, BLANK) && (a == [] <==> b == []) && tail != [] && Join(tail, BLANK) == text
    ensures Join(a + tail, BLANK) == Join(b + [text], BLANK)
  {
    if a == [] {
      assert a + tail == tail && b + [text] == [text];
    } else {
      JoinAppend(a, tail, BLANK);
      JoinAppend(b, [text], BLANK);
    }
  }

  lemma WholeSnoc(init: seq<Section>, s: Section)
    requires Whole(init + [s])
    ensures Whole(init) && Pieces(s.content) != [] && Join(Pieces(s.content), BLANK) == s.content
  {
    assert (init + [s])[|init|] == s;
    assert forall i | 0 <= i < |init| :: (init + [s])[i] == init[i];
    PiecesJoin(s.content);
  }

  // Then a note's chunks, joined in order, are its sections' text.
  lemma {:induction false} ChunksKeepTheText(sections: seq<Section>)
    requires Whole(sections)
    ensures Join(Contents(Cut(sections)), BLANK) == Join(Contents(sections), BLANK)
    ensures Contents(Cut(sections)) == [] <==> Contents(sections) == []
  {
    if sections != [] {
      var init, s := sections[..|sections| - 1], sections[|sections| - 1];
      assert sections == init + [s];
      hide Pieces, Whole, Join, Contents;
      WholeSnoc(init, s);
      ChunksKeepTheText(init);
      CutSnoc(init, s);
      ContentsSnoc(init, s);
      hide Cut;
      JoinsStayEqual(Contents(Cut(init)), Contents(init), Pieces(s.content), s.content);
    }
  }
}
