// The text of references: what counts as one in a body, and what SQL's LIKE
// finds of it.
module LinkText {
  import opened Text

  ghost predicate Occurs(s: string, pat: string) { exists i: nat :: At(s, pat, i) }

  // ---- wikilinks ----

  predicate IsBracket(c: char) { c == '[' || c == ']' }

  // How many characters come before the first bracket.
  function Run(s: string): (n: nat)
    ensures n <= |s| && (n < |s| ==> IsBracket(s[n])) && forall i | 0 <= i < n :: !IsBracket(s[i])
  {
    if s == "" || IsBracket(s[0]) then 0 else 1 + Run(s[1..])
  }

  // The expression's match at the start of s: two brackets, a name without
  // brackets, two brackets.
  function Inner(s: string): Option<string> {
    if !("[[" <= s) then None else
    var n := Run(s[2..]);
    if n > 0 && "]]" <= s[2 + n..] then Some(s[2..2 + n]) else None
  }

  // All matches from left to right, none overlapping another.
  function Wikilinks(s: string): seq<string>
    decreases |s|
  {
    if s == "" then []
    else match Inner(s)
         case Some(x) => [x] + Wikilinks(s[|x| + 4..])
         case None => Wikilinks(s[1..])
  }

  predicate IsName(x: string) { x != "" && forall i | 0 <= i < |x| :: !IsBracket(x[i]) }

  function Bracketed(x: string): string { "[[" + x + "]]" }

  lemma InnerMatches(s: string, x: string)
    ensures Inner(s) == Some(x) <==> IsName(x) && Bracketed(x) <= s
  {
    var n := if "[[" <= s then Run(s[2..]) else 0;
    if IsName(x) && Bracketed(x) <= s {
      assert forall i | 0 <= i < |x| :: s[2..][i] == Bracketed(x)[2 + i] == x[i];
      assert s[2..][|x|] == Bracketed(x)[2 + |x|] == ']';
      assert n == |x| && s[2..2 + n] == x;
      assert s[2 + n] == Bracketed(x)[2 + n] && s[3 + n] == Bracketed(x)[3 + n];
    }
    if Inner(s) == Some(x) {
      assert s[..|x| + 4] == s[..2] + s[2..2 + n] + s[2 + n..4 + n];
      assert s[2 + n..][..2] == s[2 + n..4 + n];
    }
  }

  lemma OccursLater(s: string, pat: string, k: nat)
    requires k <= |s|
    ensures Occurs(s[k..], pat) <==> exists i: nat :: i >= k && At(s, pat, i)
  {
    if i: nat :| At(s[k..], pat, i) {
      assert s[k..][i..i + |pat|] == s[k + i..k + i + |pat|];
      assert At(s, pat, k + i);
    }
    if i: nat :| i >= k && At(s, pat, i) {
      assert s[k..][i - k..i - k + |pat|] == s[i..i + |pat|];
      assert At(s[k..], pat, i - k);
    }
  }

  // No match starts inside another.
  lemma NoneInside(s: string, x: string, y: string, i: nat)
    requires IsName(x) && Bracketed(x) <= s && IsName(y) && At(s, Bracketed(y), i) && i > 0
    ensures i >= |x| + 4
  {
    var b := Bracketed(y);
    assert s[i] == s[i..i + |b|][0] == b[0] == '[' && s[i + 1] == s[i..i + |b|][1] == b[1] == '[';
    assert forall j | 0 <= j < |x| + 4 :: s[j] == Bracketed(x)[j];
    assert forall j | 0 <= j < |x| :: Bracketed(x)[j + 2] == x[j];
  }

  // The scan misses none: a name is among the links exactly when it stands in
  // the text between double brackets.
  lemma {:induction false} WikilinksAre(s: string, x: string)
    ensures x in Wikilinks(s) <==> IsName(x) && Occurs(s, Bracketed(x))
    decreases |s|
  {
    if s == "" {
    } else {
      InnerMatches(s, x);
      var k := if Inner(s).Some? then |Inner(s).value| + 4 else 1;
      if Inner(s).Some? {
        InnerMatches(s, Inner(s).value);
      }
      WikilinksAre(s[k..], x);
      OccursLater(s, Bracketed(x), k);
      if i: nat :| IsName(x) && At(s, Bracketed(x), i) {
        if i == 0 {
          assert s[0..|Bracketed(x)|] == s[..|Bracketed(x)|];
        } else if Inner(s).Some? {
          NoneInside(s, Inner(s).value, x, i);
        }
      }
      if Inner(s) == Some(x) {
        assert At(s, Bracketed(x), 0);
      }
    }
  }

  // ---- LIKE ----

  // `%` is any text, `_` any character, a backslash takes the next one as it is.
  predicate Like(s: string, pat: string)
    decreases |s| + |pat|
  {
    if pat == "" then s == ""
    else if pat[0] == '%' then Like(s, pat[1..]) || (s != "" && Like(s[1..], pat))
    else if pat[0] == '\\' && |pat| > 1 then s != "" && s[0] == pat[1] && Like(s[1..], pat[2..])
    else s != "" && (pat[0] == '_' || s[0] == pat[0]) && Like(s[1..], pat[1..])
  }

  // What a pattern without wildcards stands for.
  function Unescape(pat: string): string {
    if pat == "" then ""
    else if pat[0] == '\\' && |pat| > 1 then [pat[1]] + Unescape(pat[2..])
    else [pat[0]] + Unescape(pat[1..])
  }

  predicate NoWildcard(pat: string) { '%' !in pat && '_' !in pat }

  lemma {:induction false} LikeAny(s: string, pat: string)
    ensures Like(s, "%" + pat) <==> exists k | 0 <= k <= |s| :: Like(s[k..], pat)
    decreases |s|
  {
    var any := "%" + pat;
    assert any[0] == '%' && any[1..] == pat && s[0..] == s;
    if s != "" {
      LikeAny(s[1..], pat);
      forall k | 0 <= k < |s| ensures s[1..][k..] == s[k + 1..] {
      }
      if k :| 0 <= k <= |s| && Like(s[k..], pat) {
        assert k > 0 ==> Like(s[1..][k - 1..], pat);
      }
      if k :| 0 <= k <= |s[1..]| && Like(s[1..][k..], pat) {
        assert Like(s[k + 1..], pat);
      }
    }
  }

  lemma LikeAll(s: string)
    ensures Like(s, "%")
  {
    LikeAny(s, "");
    assert "%" + "" == "%" && Like(s[|s|..], "");
  }

  // Text without wildcards matches itself unescaped, and then the rest.
  lemma {:induction false} LikeLiteral(s: string, lit: string, pat: string)
    requires NoWildcard(lit) && WellEscaped(lit)
    ensures Like(s, lit + pat) <==> Unescape(lit) <= s && Like(s[|Unescape(lit)|..], pat)
    decreases |lit|
  {
    var both := lit + pat;
    if lit == "" {
      assert both == pat && s[0..] == s;
    } else {
      var n := if lit[0] == '\\' then 2 else 1;
      assert both[0] == lit[0] && both[n..] == lit[n..] + pat && both[n - 1] == lit[n - 1];
      if s != "" {
        LikeLiteral(s[1..], lit[n..], pat);
        Prefixed(s, lit[n - 1], Unescape(lit[n..]));
      }
    }
  }

  lemma Prefixed(s: string, c: char, rest: string)
    requires s != ""
    ensures [c] + rest <= s <==> s[0] == c && rest <= s[1..]
    ensures |rest| <= |s| - 1 ==> s[1..][|rest|..] == s[|rest| + 1..]
  {
    if s[0] == c && rest <= s[1..] {
      assert s == [s[0]] + s[1..];
    }
    if [c] + rest <= s {
      assert s[0] == ([c] + rest)[0];
      assert s[1..][..|rest|] == s[..|rest| + 1][1..] == rest;
    }
  }

  // No backslash stands last, where it would escape what follows.
  predicate WellEscaped(lit: string) {
    if lit == "" then true
    else if lit[0] == '\\' then |lit| > 1 && WellEscaped(lit[2..])
    else WellEscaped(lit[1..])
  }

  lemma {:induction false} ClosedIsWellEscaped(name: string)
    ensures WellEscaped(name + "]]")
    decreases |name|
  {
    var all := name + "]]";
    if name == "" {
      assert all == "]]" && all[1..] == "]" && all[1..][1..] == "";
    } else if name[0] == '\\' && |name| > 1 {
      assert all[2..] == name[2..] + "]]";
      ClosedIsWellEscaped(name[2..]);
    } else if name[0] == '\\' {
      assert all[2..] == "]" && all[2..][1..] == "";
    } else {
      assert all[1..] == name[1..] + "]]";
      ClosedIsWellEscaped(name[1..]);
    }
  }

  // What the reverse lookup asks of a body.
  predicate Finds(body: string, name: string) { Like(body, "%" + (Bracketed(name) + "%")) }

  // For a name without wildcards it finds exactly the bodies that hold the
  // bracketed name as LIKE reads it, escapes taken off.
  lemma FindsIff(body: string, name: string)
    requires NoWildcard(name)
    ensures Finds(body, name) <==> Occurs(body, Unescape(Bracketed(name)))
  {
    var lit := Bracketed(name);
    LikeAny(body, lit + "%");
    assert lit[1..][1..] == name + "]]";
    ClosedIsWellEscaped(name);
    assert WellEscaped(lit[1..]) && WellEscaped(lit);
    assert NoWildcard(lit);
    var u := Unescape(lit);
    forall k | 0 <= k <= |body| ensures Like(body[k..], lit + "%") <==> At(body, u, k) {
      LikeLiteral(body[k..], lit, "%");
      if u <= body[k..] {
        LikeAll(body[k..][|u|..]);
        assert body[k..][..|u|] == body[k..k + |u|];
      }
      if At(body, u, k) {
        assert body[k..][..|u|] == body[k..k + |u|];
      }
    }
  }

  // Without a backslash in the name either, those are the bodies that hold it
  // literally.
  lemma {:induction false} UnescapeNothing(s: string)
    requires '\\' !in s
    ensures Unescape(s) == s
  {
    if s != "" {
      UnescapeNothing(s[1..]);
    }
  }

  // Wildcards in a name match themselves too: without a backslash no body that
  // holds the name literally is missed.
  lemma {:induction false} LikeItself(s: string, lit: string, pat: string)
    requires '\\' !in lit && lit <= s && Like(s[|lit|..], pat)
    ensures Like(s, lit + pat)
    decreases |lit|
  {
    var both := lit + pat;
    if lit == "" {
      assert both == pat && s[0..] == s;
    } else {
      assert both[0] == lit[0] && both[1..] == lit[1..] + pat && s[0] == lit[0];
      assert s[1..][..|lit| - 1] == s[..|lit|][1..] == lit[1..];
      assert s[1..][|lit| - 1..] == s[|lit|..];
      LikeItself(s[1..], lit[1..], pat);
      if lit[0] == '%' {
        LikeAny(s[1..], both[1..]);
        assert s[1..][0..] == s[1..];
        assert "%" + both[1..] == both;
      }
    }
  }

  lemma FindsLiteral(body: string, name: string)
    requires '\\' !in name && Occurs(body, Bracketed(name))
    ensures Finds(body, name)
  {
    var lit := Bracketed(name);
    var i: nat :| At(body, lit, i);
    assert body[i..][..|lit|] == body[i..i + |lit|];
    LikeAll(body[i..][|lit|..]);
    LikeItself(body[i..], lit, "%");
    LikeAny(body, lit + "%");
  }

  // A name as the pattern around it reads it; a last backslash goes to the
  // bracket that follows.
  function Escaped(name: string): string {
    if name == "" || name == "\\" then ""
    else if name[0] == '\\' then [name[1]] + Escaped(name[2..])
    else [name[0]] + Escaped(name[1..])
  }

  lemma {:induction false} UnescapeName(name: string)
    ensures Unescape(name + "]]") == Escaped(name) + "]]"
    ensures |Escaped(name)| <= |name| && ('\\' in name ==> |Escaped(name)| < |name|)
    decreases |name|
  {
    var all := name + "]]";
    if name == "" {
      assert all == "]]" && all[1..] == "]" && all[1..][1..] == "";
    } else if name == "\\" {
      assert all[0] == '\\' && all[1] == ']' && all[2..] == "]" && "]"[1..] == "";
      assert Unescape("]") == "]";
      assert Unescape(all) == [all[1]] + Unescape(all[2..]);
    } else {
      var n := if name[0] == '\\' then 2 else 1;
      assert all[n..] == name[n..] + "]]" && all[n - 1] == name[n - 1];
      UnescapeName(name[n..]);
    }
  }

  lemma UnescapeShrinks(name: string)
    ensures Unescape(Bracketed(name)) == Bracketed(Escaped(name))
    ensures '\\' in name ==> |Escaped(name)| < |name|
  {
    UnescapeName(name);
    assert Bracketed(name)[1..][1..] == name + "]]";
  }

  // A bracketed name holds no other, shorter one.
  lemma ShorterIsNotInside(name: string, other: string)
    requires IsName(name) && |other| < |name|
    ensures !Occurs(Bracketed(name), Bracketed(other))
  {
    forall i: nat ensures !At(Bracketed(name), Bracketed(other), i) {
      NotThere(name, other, i);
    }
  }

  lemma NotThere(name: string, other: string, i: nat)
    requires IsName(name) && |other| < |name|
    ensures !At(Bracketed(name), Bracketed(other), i)
  {
    var s, b := Bracketed(name), Bracketed(other);
    assert forall j | 0 <= j < |name| :: s[j + 2] == name[j];
    assert b[0] == '[' && b[1] == '[' && b[|other| + 2] == ']';
    if i + |b| <= |s| {
      var part := s[i..i + |b|];
      assert part[0] == s[i] && part[1] == s[i + 1] && part[|other| + 2] == s[i + |other| + 2];
    }
  }
}
