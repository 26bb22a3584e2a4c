// What strings.TrimSpace does to a whole text.
module Spacing {
  import opened Text

  predicate Blanks(s: string) { forall i | 0 <= i < |s| :: IsSpace(s[i]) }

  // Text without space at its ends.
  predicate Tight(s: string) { s == "" || (!IsSpace(s[0]) && !IsSpace(s[|s| - 1])) }

  lemma {:induction false} LeftIs(a: string, rest: string)
    requires Blanks(a) && (rest == "" || !IsSpace(rest[0]))
    ensures TrimLeft(a + rest) == rest
  {
    if a == "" {
      assert a + rest == rest;
    } else {
      assert (a + rest)[0] == a[0] && (a + rest)[1..] == a[1..] + rest;
      LeftIs(a[1..], rest);
    }
  }

  lemma {:induction false} RightIs(rest: string, b: string)
    requires Blanks(b) && (rest == "" || !IsSpace(rest[|rest| - 1]))
    ensures TrimRight(rest + b) == rest
  {
    if b == "" {
      assert rest + b == rest;
    } else {
      var n := |b| - 1;
      assert (rest + b)[|rest + b| - 1] == b[n] && (rest + b)[..|rest + b| - 1] == rest + b[..n];
      RightIs(rest, b[..n]);
    }
  }

  // Space around a text goes, and nothing else.
  lemma TrimIs(a: string, core: string, b: string)
    requires Blanks(a) && Tight(core) && Blanks(b)
    ensures Trim(a + core + b) == core
  {
    if core == "" {
      var all := a + b;
      assert a + core + b == all && all + "" == all && "" + "" == "";
      LeftIs(all, "");
    } else {
      assert a + core + b == a + (core + b) && (core + b)[0] == core[0];
      LeftIs(a, core + b);
      RightIs(core, b);
    }
  }

  // Every text is space, a tight core and space.
  lemma {:induction false} LeftSplits(s: string) returns (a: string)
    ensures Blanks(a) && s == a + TrimLeft(s) && (TrimLeft(s) == "" || !IsSpace(TrimLeft(s)[0]))
  {
    if s != "" && IsSpace(s[0]) {
      var rest := LeftSplits(s[1..]);
      a := [s[0]] + rest;
      assert s == [s[0]] + s[1..];
    } else {
      a := "";
    }
  }

  lemma {:induction false} RightSplits(s: string) returns (b: string)
    ensures Blanks(b) && s == TrimRight(s) + b && (TrimRight(s) == "" || !IsSpace(TrimRight(s)[|TrimRight(s)| - 1]))
  {
    if s != "" && IsSpace(s[|s| - 1]) {
      var rest := RightSplits(s[..|s| - 1]);
      b := rest + [s[|s| - 1]];
      assert s == s[..|s| - 1] + [s[|s| - 1]];
    } else {
      b := "";
    }
  }

  lemma TrimSplits(s: string) returns (a: string, b: string)
    ensures Blanks(a) && Blanks(b) && s == a + Trim(s) + b && Tight(Trim(s))
  {
    a := LeftSplits(s);
    var t := TrimLeft(s);
    b := RightSplits(t);
    assert Trim(s) != "" ==> t[0] == Trim(s)[0];
  }

  // A text trims to nothing exactly when it is nothing but space.
  lemma BlankIff(s: string)
    ensures Trim(s) == "" <==> Blanks(s)
  {
    if Blanks(s) {
      TrimIs(s, "", "");
      assert s + "" + "" == s;
    } else {
      var a, b := TrimSplits(s);
    }
  }
}
